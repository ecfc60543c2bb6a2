// Decoding undoes encoding, and encoding does not depend on insertion order.
module BencodeLaws {
  import opened Bencode
  import opened PythonInt
  import opened Text

  // --- The canonical form: every dictionary in key order ---

  function Canon(v: Value): Value
    decreases v, 0
  {
    match v
    case Bytes(_) => v
    case Int(_) => v
    case List(values) => List(CanonList(values))
    case Dict(items) => Dict(SortByKey(CanonItems(items)))
  }

  function CanonList(values: seq<Value>): (r: seq<Value>)
    ensures |r| == |values|
    decreases values, 1
  {
    if values == [] then [] else [Canon(values[0])] + CanonList(values[1..])
  }

  function CanonItems(items: seq<Entry<Value>>): (r: seq<Entry<Value>>)
    ensures |r| == |items|
    decreases items, 1
  {
    if items == [] then [] else [Entry(items[0].key, Canon(items[0].value))] + CanonItems(items[1..])
  }

  // --- Encoding without sorting ---

  function InOrder(v: Value): bytes
    decreases v, 0
  {
    match v
    case Bytes(b) => EncodeBytes(b)
    case Int(i) => [105] + Ascii(IntText(i)) + [101]
    case List(values) => [108] + InOrderList(values) + [101]
    case Dict(items) => [100] + InOrderItems(items) + [101]
  }

  function InOrderList(values: seq<Value>): bytes
    decreases values, 1
  {
    if values == [] then [] else InOrder(values[0]) + InOrderList(values[1..])
  }

  function InOrderItems(items: seq<Entry<Value>>): bytes
    decreases items, 1
  {
    if items == [] then []
    else EncodeBytes(items[0].key) + InOrder(items[0].value) + InOrderItems(items[1..])
  }

  // --- Sorting ---

  function Render(items: seq<Entry<Value>>): (r: seq<Entry<bytes>>)
    ensures |r| == |items|
    ensures forall i :: 0 <= i < |r| ==> r[i] == Entry(items[i].key, InOrder(items[i].value))
  {
    seq(|items|, i requires 0 <= i < |items| => Entry(items[i].key, InOrder(items[i].value)))
  }

  lemma {:induction false} InsertRendered(item: Entry<Value>, sorted: seq<Entry<Value>>)
    ensures Render(InsertByKey(item, sorted))
      == InsertByKey(Entry(item.key, InOrder(item.value)), Render(sorted))
  {
    if sorted != [] && !KeyLess(item.key, sorted[0].key) {
      InsertRendered(item, sorted[1..]);
      assert Render(sorted[1..]) == Render(sorted)[1..];
    }
  }

  lemma {:induction false} SortRendered(items: seq<Entry<Value>>)
    ensures Render(SortByKey(items)) == SortByKey(Render(items))
  {
    if items == [] {
    } else {
      var n := |items| - 1;
      SortRendered(items[..n]);
      assert Render(items)[..n] == Render(items[..n]);
      InsertRendered(items[n], SortByKey(items[..n]));
    }
  }

  lemma {:induction false} JoinRendered(items: seq<Entry<Value>>)
    ensures JoinEntries(Render(items)) == InOrderItems(items)
  {
    if items == [] {
    } else {
      JoinRendered(items[1..]);
      assert Render(items)[1..] == Render(items[1..]);
    }
  }

  // Encoding is putting in canonical form and writing in order.
  lemma {:induction false} EncodeIsCanonInOrder(v: Value)
    ensures Encode(v) == InOrder(Canon(v))
    decreases v, 0
  {
    match v
    case Bytes(_) =>
    case Int(_) =>
    case List(values) => EncodeListIsCanon(values);
    case Dict(items) =>
      EncodeItemsIsCanon(items);
      SortRendered(CanonItems(items));
      JoinRendered(SortByKey(CanonItems(items)));
  }

  lemma {:induction false} EncodeListIsCanon(values: seq<Value>)
    ensures EncodeList(values) == InOrderList(CanonList(values))
    decreases values, 1
  {
    if values == [] {
    } else {
      EncodeIsCanonInOrder(values[0]);
      EncodeListIsCanon(values[1..]);
      assert CanonList(values)[1..] == CanonList(values[1..]);
    }
  }

  lemma {:induction false} EncodeItemsIsCanon(items: seq<Entry<Value>>)
    ensures EncodeItems(items) == Render(CanonItems(items))
    decreases items, 1
  {
    if items == [] {
    } else {
      EncodeIsCanonInOrder(items[0].value);
      EncodeItemsIsCanon(items[1..]);
      assert Render(CanonItems(items))[1..] == Render(CanonItems(items[1..]));
    }
  }

  // --- The decoder's limits ---

  ghost predicate DistinctKeys<T>(items: seq<Entry<T>>) {
    forall i, j :: 0 <= i < j < |items| ==> items[i].key != items[j].key
  }

  ghost predicate Within(v: Value, depth: nat)
    decreases v
  {
    && depth <= MAX_DEPTH
    && match v
       case Bytes(b) => |b| <= MAX_CONTROL_PACKET
       case Int(i) => |Dec(if i < 0 then -i else i)| <= MAX_DIGITS
       case List(values) =>
         |values| <= MAX_LIST && forall i :: 0 <= i < |values| ==> Within(values[i], depth + 1)
       case Dict(items) =>
         && |items| <= MAX_DICT && DistinctKeys(items)
         && forall i :: 0 <= i < |items| ==> |items[i].key| <= MAX_CONTROL_PACKET && Within(items[i].value, depth + 1)
  }

  // --- Decoding what was written in order ---

  // `part` stands at `offset` in `data`.
  predicate At(data: bytes, offset: nat, part: bytes) {
    offset + |part| <= |data| && data[offset..offset + |part|] == part
  }

  lemma AtSplit(data: bytes, offset: nat, a: bytes, b: bytes)
    requires At(data, offset, a + b)
    ensures At(data, offset, a) && At(data, offset + |a|, b)
  {
    var whole := data[offset..offset + |a + b|];
    assert whole[..|a|] == a && whole[|a|..] == b;
    assert data[offset..offset + |a|] == whole[..|a|];
    assert data[offset + |a|..offset + |a| + |b|] == whole[|a|..];
  }

  lemma FindByteIs(data: bytes, b: byte, from: nat, at: nat)
    requires from <= at < |data| && data[at] == b && forall i :: from <= i < at ==> data[i] != b
    ensures FindByte(data, b, from) == at
  {
  }

  lemma LatinOfAscii(s: string)
    requires forall i :: 0 <= i < |s| ==> s[i] < 128 as char
    ensures Latin(Ascii(s)) == s
  {
  }

  lemma IntTextPlain(i: int)
    ensures IntText(i) != ""
    ensures forall k :: 0 <= k < |IntText(i)| ==> IntText(i)[k] == '-' || IsDigit(IntText(i)[k])
    ensures IntText(i)[0] == '0' ==> IntText(i) == "0"
    ensures IntText(i) != "-0"
    ensures i >= 0 ==> IsDigit(IntText(i)[0])
  {
    var magnitude := if i < 0 then -i else i;
    DecShape(magnitude);
    if i < 0 { assert IntText(i)[1..] == Dec(-i); }
  }

  // A decimal number closed by `stop`, found and read back.
  lemma NumberAt(data: bytes, offset: nat, i: int, stop: byte)
    requires At(data, offset, Ascii(IntText(i)) + [stop]) && stop in {58, 101}
    ensures var end := offset + |IntText(i)|;
      && end < |data| && FindByte(data, stop, offset) == end
      && Latin(data[offset..end]) == IntText(i)
      && data[offset] == IntText(i)[0] as int
  {
    var text := IntText(i);
    var end := offset + |text|;
    IntTextPlain(i);
    AtSplit(data, offset, Ascii(text), [stop]);
    assert data[offset..end] == Ascii(text);
    assert data[end] == data[end..end + 1][0];
    forall k | offset <= k < end ensures data[k] == text[k - offset] as int && data[k] != stop {
      assert data[k] == data[offset..end][k - offset];
    }
    FindByteIs(data, stop, offset, end);
    LatinOfAscii(text);
  }

  // Text that both number readers accept as it stands.
  predicate PlainNumber(text: string, value: int) {
    text != "" && (text[0] == '0' ==> text == "0") && text != "-0" && PyInt(text) == Some(value)
  }

  lemma IntTextIsPlain(i: int)
    requires |Dec(if i < 0 then -i else i)| <= MAX_DIGITS
    ensures PlainNumber(IntText(i), i)
  {
    IntTextPlain(i);
    PyIntOfIntText(i);
  }

  lemma DecodeIntStep(data: bytes, offset: nat, end: nat, text: string, i: int)
    requires offset < end < |data| && FindByte(data, 101, offset + 1) == end
    requires Latin(data[offset + 1..end]) == text && PlainNumber(text, i)
    ensures DecodeInt(data, offset) == Ok((Int(i), end + 1))
  {
  }

  lemma DecodeIntAt(data: bytes, offset: nat, i: int)
    requires At(data, offset, [105]) && At(data, offset + 1, Ascii(IntText(i)) + [101])
    requires |Dec(if i < 0 then -i else i)| <= MAX_DIGITS
    ensures DecodeInt(data, offset) == Ok((Int(i), offset + |IntText(i)| + 2))
  {
    hide DecodeInt, PyInt, Dec;
    NumberAt(data, offset + 1, i, 101);
    IntTextIsPlain(i);
    DecodeIntStep(data, offset, offset + 1 + |IntText(i)|, IntText(i), i);
  }

  lemma DecodeStringStep(data: bytes, offset: nat, colon: nat, text: string, b: bytes)
    requires offset < colon < |data| && FindByte(data, 58, offset) == colon && colon - offset <= 6
    requires Latin(data[offset..colon]) == text && PlainNumber(text, |b|)
    requires |b| <= MAX_CONTROL_PACKET && At(data, colon + 1, b)
    ensures DecodeString(data, offset) == Ok((Bytes(b), colon + 1 + |b|))
  {
  }

  lemma DecodeStringAt(data: bytes, offset: nat, b: bytes)
    requires At(data, offset, EncodeBytes(b)) && |b| <= MAX_CONTROL_PACKET
    ensures offset < |data| && IsAsciiDigit(data[offset])
    ensures DecodeString(data, offset) == Ok((Bytes(b), offset + |EncodeBytes(b)|))
  {
    var colon, text := StringParts(data, offset, b);
    DecodeStringStep(data, offset, colon, text, b);
  }

  lemma StringParts(data: bytes, offset: nat, b: bytes) returns (colon: nat, text: string)
    requires At(data, offset, EncodeBytes(b)) && |b| <= MAX_CONTROL_PACKET
    ensures offset < colon < |data| && FindByte(data, 58, offset) == colon && colon - offset <= 6
    ensures Latin(data[offset..colon]) == text && PlainNumber(text, |b|)
    ensures At(data, colon + 1, b) && colon + 1 + |b| == offset + |EncodeBytes(b)|
    ensures IsAsciiDigit(data[offset])
  {
    hide PyInt, Dec;
    var n: int := |b|;
    colon, text := offset + |IntText(n)|, IntText(n);
    AtSplit(data, offset, Ascii(text) + [58], b);
    NumberAt(data, offset, n, 58);
    IntTextPlain(n);
    LengthText(|b|);
    IntTextIsPlain(n);
  }

  lemma LengthText(n: nat)
    requires n <= MAX_CONTROL_PACKET
    ensures |IntText(n)| <= 5
  {
    assert PowTen(5) == 10 * (10 * (10 * (10 * (10 * PowTen(0)))));
    DecLength(n, 5);
  }

  // Every encoding starts with a marker of its own, never the closing "e".
  lemma StartsWithMarker(v: Value)
    ensures InOrder(v) != [] && InOrder(v)[0] != 101
  {
    if v.Bytes? { DecShape(|v.b|); }
  }

  lemma DecodeListStep(data: bytes, cursor: nat, depth: nat, done: seq<Value>, v: Value, next: nat)
    requires cursor < |data| && data[cursor] != 101 && |done| < MAX_LIST
    requires Decode(data, cursor, depth + 1) == Ok((v, next))
    ensures DecodeList(data, cursor, depth, done) == DecodeList(data, next, depth, done + [v])
  {
  }

  lemma DecodeDictStep(data: bytes, cursor: nat, depth: nat, done: seq<Entry<Value>>, e: Entry<Value>, mid: nat, next: nat)
    requires cursor < |data| && data[cursor] != 101 && |done| < MAX_DICT && !HasKey(done, e.key)
    requires Decode(data, cursor, depth + 1) == Ok((Bytes(e.key), mid))
    requires Decode(data, mid, depth + 1) == Ok((e.value, next))
    ensures DecodeDict(data, cursor, depth, done) == DecodeDict(data, next, depth, done + [e])
  {
  }

  lemma MarkerAt(data: bytes, offset: nat, part: bytes)
    requires At(data, offset, part) && part != []
    ensures offset < |data| && data[offset] == part[0]
  {
    assert data[offset] == data[offset..offset + |part|][0];
  }

  lemma Dispatch(data: bytes, offset: nat, depth: nat)
    requires offset < |data| && depth <= MAX_DEPTH
    ensures data[offset] == 105 ==> Decode(data, offset, depth) == DecodeInt(data, offset)
    ensures data[offset] == 108 ==> Decode(data, offset, depth) == DecodeList(data, offset + 1, depth, [])
    ensures data[offset] == 100 ==> Decode(data, offset, depth) == DecodeDict(data, offset + 1, depth, [])
    ensures IsAsciiDigit(data[offset]) ==> Decode(data, offset, depth) == DecodeString(data, offset)
  {
  }

  // Decoding at the start of what was written in order returns the value and
  // stops exactly at its end, whatever follows.
  lemma {:induction false} DecodeInOrder(data: bytes, offset: nat, depth: nat, v: Value)
    requires At(data, offset, InOrder(v)) && Within(v, depth)
    ensures Decode(data, offset, depth) == Ok((v, offset + |InOrder(v)|))
    decreases v, 0
  {
    hide DecodeInt, DecodeString, PyInt, EncodeBytes, IntText, Dec, Ascii, DecodeList, DecodeDict, At, InOrderList, InOrderItems;
    match v
    case Bytes(b) =>
      DecodeStringAt(data, offset, b);
      Dispatch(data, offset, depth);
    case Int(i) =>
      IntInOrder(data, offset, depth, i);
    case List(values) =>
      assert InOrder(v) == [108] + (InOrderList(values) + [101]);
      MarkerSplit(data, offset, 108, InOrderList(values) + [101]);
      DecodeListInOrder(data, offset + 1, depth, [], values);
      assert [] + values == values;
      Dispatch(data, offset, depth);
    case Dict(items) =>
      assert InOrder(v) == [100] + (InOrderItems(items) + [101]);
      MarkerSplit(data, offset, 100, InOrderItems(items) + [101]);
      assert [] + items == items;
      DecodeDictInOrder(data, offset + 1, depth, [], items);
      Dispatch(data, offset, depth);
  }

  lemma IntInOrder(data: bytes, offset: nat, depth: nat, i: int)
    requires At(data, offset, InOrder(Int(i))) && depth <= MAX_DEPTH
    requires |Dec(if i < 0 then -i else i)| <= MAX_DIGITS
    ensures Decode(data, offset, depth) == Ok((Int(i), offset + |InOrder(Int(i))|))
  {
    hide DecodeInt, IntText, Dec, Ascii;
    assert InOrder(Int(i)) == [105] + (Ascii(IntText(i)) + [101]);
    MarkerSplit(data, offset, 105, Ascii(IntText(i)) + [101]);
    DecodeIntAt(data, offset, i);
    Dispatch(data, offset, depth);
  }

  lemma MarkerSplit(data: bytes, offset: nat, marker: byte, rest: bytes)
    requires At(data, offset, [marker] + rest)
    ensures At(data, offset, [marker]) && At(data, offset + 1, rest)
    ensures offset < |data| && data[offset] == marker
  {
    AtSplit(data, offset, [marker], rest);
    MarkerAt(data, offset, [marker]);
  }

  lemma {:induction false} DecodeListInOrder(data: bytes, cursor: nat, depth: nat, done: seq<Value>, values: seq<Value>)
    requires At(data, cursor, InOrderList(values) + [101])
    requires |done| + |values| <= MAX_LIST && depth <= MAX_DEPTH
    requires forall i :: 0 <= i < |values| ==> Within(values[i], depth + 1)
    ensures DecodeList(data, cursor, depth, done) == Ok((List(done + values), cursor + |InOrderList(values)| + 1))
    decreases values, 1
  {
    hide DecodeInt, DecodeString, PyInt, EncodeBytes, IntText, Dec, Ascii, Decode, At, InOrder;
    if values == [] {
      DecodeEnd(data, cursor, depth, done, []);
      assert done + values == done;
    } else {
      var v, tail := values[0], values[1..];
      var next := ListHead(data, cursor, values);
      DecodeInOrder(data, cursor, depth + 1, v);
      DecodeListStep(data, cursor, depth, done, v, next);
      DecodeListInOrder(data, next, depth, done + [v], tail);
      assert (done + [v]) + tail == done + values;
    }
  }

  lemma DecodeEnd(data: bytes, cursor: nat, depth: nat, values: seq<Value>, items: seq<Entry<Value>>)
    requires At(data, cursor, [101]) || At(data, cursor, InOrderList([]) + [101])
      || At(data, cursor, InOrderItems([]) + [101])
    ensures DecodeList(data, cursor, depth, values) == Ok((List(values), cursor + 1))
    ensures DecodeDict(data, cursor, depth, items) == Ok((Dict(items), cursor + 1))
  {
    assert InOrderList([]) + [101] == [101] && InOrderItems([]) + [101] == [101];
    MarkerAt(data, cursor, [101]);
  }

  lemma ListHead(data: bytes, cursor: nat, values: seq<Value>) returns (next: nat)
    requires values != [] && At(data, cursor, InOrderList(values) + [101])
    ensures At(data, cursor, InOrder(values[0])) && cursor < |data| && data[cursor] != 101
    ensures next == cursor + |InOrder(values[0])| && At(data, next, InOrderList(values[1..]) + [101])
    ensures cursor + |InOrderList(values)| == next + |InOrderList(values[1..])|
  {
    var first, rest := InOrder(values[0]), InOrderList(values[1..]) + [101];
    next := cursor + |first|;
    assert InOrderList(values) + [101] == first + rest;
    AtSplit(data, cursor, first, rest);
    StartsWithMarker(values[0]);
    MarkerAt(data, cursor, first);
  }

  lemma {:induction false} DecodeDictInOrder(data: bytes, cursor: nat, depth: nat, done: seq<Entry<Value>>, items: seq<Entry<Value>>)
    requires At(data, cursor, InOrderItems(items) + [101])
    requires |done| + |items| <= MAX_DICT && depth <= MAX_DEPTH && DistinctKeys(done + items)
    requires forall i :: 0 <= i < |items| ==> |items[i].key| <= MAX_CONTROL_PACKET && Within(items[i].value, depth + 1)
    ensures DecodeDict(data, cursor, depth, done) == Ok((Dict(done + items), cursor + |InOrderItems(items)| + 1))
    decreases items, 1
  {
    hide DecodeInt, DecodeString, PyInt, EncodeBytes, IntText, Dec, Ascii, Decode, At, InOrder;
    if items == [] {
      DecodeEnd(data, cursor, depth, [], done);
      assert done + items == done;
    } else {
      var e, tail := items[0], items[1..];
      var mid, next := DictHead(data, cursor, items);
      assert Within(e.value, depth + 1);
      KeyInOrder(data, cursor, depth + 1, e.key);
      DecodeInOrder(data, mid, depth + 1, e.value);
      assert e == (done + items)[|done|];
      forall i | 0 <= i < |done| ensures done[i].key != e.key {
        assert (done + items)[i] == done[i];
      }
      DecodeDictStep(data, cursor, depth, done, e, mid, next);
      assert (done + [e]) + tail == done + items;
      DecodeDictInOrder(data, next, depth, done + [e], tail);
    }
  }

  lemma DictHead(data: bytes, cursor: nat, items: seq<Entry<Value>>) returns (mid: nat, next: nat)
    requires items != [] && At(data, cursor, InOrderItems(items) + [101])
    ensures At(data, cursor, EncodeBytes(items[0].key)) && mid == cursor + |EncodeBytes(items[0].key)|
    ensures At(data, mid, InOrder(items[0].value)) && next == mid + |InOrder(items[0].value)|
    ensures At(data, next, InOrderItems(items[1..]) + [101])
    ensures cursor + |InOrderItems(items)| == next + |InOrderItems(items[1..])|
  {
    var key, value := EncodeBytes(items[0].key), InOrder(items[0].value);
    var rest := InOrderItems(items[1..]) + [101];
    mid, next := cursor + |key|, cursor + |key| + |value|;
    assert InOrderItems(items) + [101] == key + (value + rest);
    AtSplit(data, cursor, key, value + rest);
    AtSplit(data, mid, value, rest);
  }

  lemma KeyInOrder(data: bytes, cursor: nat, depth: nat, key: bytes)
    requires At(data, cursor, EncodeBytes(key)) && |key| <= MAX_CONTROL_PACKET && depth <= MAX_DEPTH
    ensures cursor < |data| && data[cursor] != 101
    ensures Decode(data, cursor, depth) == Ok((Bytes(key), cursor + |EncodeBytes(key)|))
  {
    DecodeStringAt(data, cursor, key);
  }

  // --- Canonical form keeps the limits ---

  lemma {:induction false} InsertMembers<T>(item: Entry<T>, sorted: seq<Entry<T>>, x: Entry<T>)
    ensures |InsertByKey(item, sorted)| == |sorted| + 1
    ensures x in InsertByKey(item, sorted) <==> x == item || x in sorted
  {
    if sorted != [] && !KeyLess(item.key, sorted[0].key) {
      InsertMembers(item, sorted[1..], x);
      assert sorted == [sorted[0]] + sorted[1..];
    }
  }

  lemma {:induction false} SortMembers<T>(items: seq<Entry<T>>, x: Entry<T>)
    ensures |SortByKey(items)| == |items|
    ensures x in SortByKey(items) <==> x in items
  {
    if items == [] {
    } else {
      var n := |items| - 1;
      SortMembers(items[..n], x);
      InsertMembers(items[n], SortByKey(items[..n]), x);
      assert items == items[..n] + [items[n]];
    }
  }

  // --- Sorting gives strictly increasing keys ---

  ghost predicate Increasing<T>(items: seq<Entry<T>>) {
    forall i, j :: 0 <= i < j < |items| ==> KeyLess(items[i].key, items[j].key)
  }

  lemma {:induction false} KeyLessTotal(a: bytes, b: bytes)
    ensures KeyLess(a, b) || KeyLess(b, a) || a == b
    ensures !(KeyLess(a, b) && KeyLess(b, a))
  {
    if a != [] && b != [] && a[0] == b[0] {
      KeyLessTotal(a[1..], b[1..]);
      assert a == [a[0]] + a[1..] && b == [b[0]] + b[1..];
    }
  }

  lemma {:induction false} KeyLessIrreflexive(a: bytes)
    ensures !KeyLess(a, a)
  {
    if a == [] {
    } else {
      KeyLessIrreflexive(a[1..]);
    }
  }

  lemma {:induction false} KeyLessTransitive(a: bytes, b: bytes, c: bytes)
    requires KeyLess(a, b) && KeyLess(b, c)
    ensures KeyLess(a, c)
  {
    if a != [] && a[0] == b[0] == c[0] {
      KeyLessTransitive(a[1..], b[1..], c[1..]);
    }
  }

  lemma {:induction false} InsertIncreasing<T>(item: Entry<T>, sorted: seq<Entry<T>>)
    requires Increasing(sorted) && forall i :: 0 <= i < |sorted| ==> sorted[i].key != item.key
    ensures Increasing(InsertByKey(item, sorted))
  {
    var r := InsertByKey(item, sorted);
    if sorted == [] {
    } else if KeyLess(item.key, sorted[0].key) {
      forall j | 0 < j < |r| ensures KeyLess(item.key, r[j].key) {
        if j > 1 { KeyLessTransitive(item.key, sorted[0].key, sorted[j - 1].key); }
      }
    } else {
      var tail := InsertByKey(item, sorted[1..]);
      InsertIncreasing(item, sorted[1..]);
      KeyLessTotal(item.key, sorted[0].key);
      forall j | 0 <= j < |tail| ensures KeyLess(sorted[0].key, tail[j].key) {
        InsertMembers(item, sorted[1..], tail[j]);
      }
    }
  }

  lemma {:induction false} SortIncreasing<T>(items: seq<Entry<T>>)
    requires DistinctKeys(items)
    ensures Increasing(SortByKey(items))
  {
    if items == [] {
    } else {
      var n := |items| - 1;
      var sorted := SortByKey(items[..n]);
      SortIncreasing(items[..n]);
      forall i | 0 <= i < |sorted| ensures sorted[i].key != items[n].key {
        SortMembers(items[..n], sorted[i]);
      }
      InsertIncreasing(items[n], sorted);
    }
  }

  lemma IncreasingIsDistinct<T>(items: seq<Entry<T>>)
    requires Increasing(items)
    ensures DistinctKeys(items)
  {
    forall i, j | 0 <= i < j < |items| ensures items[i].key != items[j].key {
      KeyLessIrreflexive(items[i].key);
    }
  }

  lemma {:induction false} CanonListAt(values: seq<Value>, i: nat)
    requires i < |values|
    ensures CanonList(values)[i] == Canon(values[i])
  {
    if i == 0 {
    } else {
      CanonListAt(values[1..], i - 1);
    }
  }

  lemma {:induction false} CanonItemsAt(items: seq<Entry<Value>>, i: nat)
    requires i < |items|
    ensures CanonItems(items)[i] == Entry(items[i].key, Canon(items[i].value))
  {
    if i == 0 {
    } else {
      CanonItemsAt(items[1..], i - 1);
    }
  }

  lemma CanonItemsDistinct(items: seq<Entry<Value>>)
    requires DistinctKeys(items)
    ensures DistinctKeys(CanonItems(items))
  {
    forall i, j | 0 <= i < j < |items| ensures CanonItems(items)[i].key != CanonItems(items)[j].key {
      CanonItemsAt(items, i);
      CanonItemsAt(items, j);
    }
  }

  lemma {:induction false} CanonWithin(v: Value, depth: nat)
    requires Within(v, depth)
    ensures Within(Canon(v), depth)
    decreases v
  {
    hide Dec;
    match v
    case Bytes(_) =>
    case Int(_) =>
    case List(values) =>
      forall i | 0 <= i < |values| ensures Within(CanonList(values)[i], depth + 1) {
        CanonListAt(values, i);
        CanonWithin(values[i], depth + 1);
      }
    case Dict(items) =>
      var canon := CanonItems(items);
      var sorted := SortByKey(canon);
      CanonItemsDistinct(items);
      SortIncreasing(canon);
      IncreasingIsDistinct(sorted);
      SortLength(canon);
      forall i | 0 <= i < |sorted|
        ensures |sorted[i].key| <= MAX_CONTROL_PACKET && Within(sorted[i].value, depth + 1)
      {
        SortMembers(canon, sorted[i]);
        var j :| 0 <= j < |canon| && canon[j] == sorted[i];
        CanonItemsAt(items, j);
        CanonWithin(items[j].value, depth + 1);
      }
  }

  lemma {:induction false} SortLength<T>(items: seq<Entry<T>>)
    ensures |SortByKey(items)| == |items|
  {
    if items == [] {
    } else {
      SortMembers(items, items[0]);
    }
  }

  // --- Main results ---

  // Decoding an encoded value returns an equal one, with its dictionaries in key
  // order, and stops exactly at the end of the encoding, whatever follows it.
  lemma DecodeOfEncode(v: Value, rest: bytes)
    requires Within(v, 0)
    ensures Decode(Encode(v) + rest, 0, 0) == Ok((Canon(v), |Encode(v)|))
    ensures Equal(v, Canon(v))
  {
    CanonIsEqual(v, 0);
    hide Decode, Encode, Canon, InOrder, Within, Equal;
    var data := Encode(v) + rest;
    EncodeIsCanonInOrder(v);
    CanonWithin(v, 0);
    assert At(data, 0, InOrder(Canon(v))) by { assert data[0..|Encode(v)|] == Encode(v); }
    DecodeInOrder(data, 0, 0, Canon(v));
  }

  lemma ControlRoundTrip(v: Value)
    requires v.Dict? && Within(v, 0) && BencodeDict(v).Ok?
    ensures BdecodeDict(BencodeDict(v).value) == Ok(Canon(v))
  {
    DecodeOfEncode(v, []);
    assert Encode(v) + [] == Encode(v);
  }

  // --- Insertion order does not matter ---

  // Equality of values as Python has it: dictionaries agree key by key.
  ghost predicate Equal(v: Value, w: Value)
    decreases v
  {
    match v
    case Bytes(_) => w == v
    case Int(_) => w == v
    case List(values) =>
      w.List? && |w.values| == |values| && forall i :: 0 <= i < |values| ==> Equal(values[i], w.values[i])
    case Dict(items) =>
      && w.Dict? && |w.items| == |items| && DistinctKeys(items) && DistinctKeys(w.items)
      && forall i :: 0 <= i < |items| ==>
           exists j :: 0 <= j < |w.items| && w.items[j].key == items[i].key && Equal(items[i].value, w.items[j].value)
  }

  // Two lists in increasing key order with the same members are the same list.
  lemma {:induction false} IncreasingUnique<T>(a: seq<Entry<T>>, b: seq<Entry<T>>)
    requires Increasing(a) && Increasing(b) && |a| == |b|
    requires forall x :: x in a ==> x in b
    ensures a == b
  {
    if a == [] {
    } else {
      FirstsAgree(a, b);
      forall x | x in a[1..] ensures x in b[1..] {
        var i :| 0 <= i < |a[1..]| && a[1..][i] == x;
        assert a[i + 1] == x && x in a;
        KeyLessIrreflexive(x.key);
        var j :| 0 <= j < |b| && b[j] == x;
        assert j != 0;
        assert b[1..][j - 1] == x;
      }
      IncreasingUnique(a[1..], b[1..]);
      assert a == [a[0]] + a[1..] && b == [b[0]] + b[1..];
    }
  }

  lemma FirstsAgree<T>(a: seq<Entry<T>>, b: seq<Entry<T>>)
    requires Increasing(a) && Increasing(b) && |a| == |b| > 0
    requires forall x :: x in a ==> x in b
    ensures a[0] == b[0]
  {
    assert a[0] in a;
    var j :| 0 <= j < |b| && b[j] == a[0];
    if j > 0 {
      // Then b[0] comes before every member of a, so all of them sit in b[1..].
      forall x | x in a ensures x in b[1..] {
        var i :| 0 <= i < |a| && a[i] == x;
        var k :| 0 <= k < |b| && b[k] == x;
        if k == 0 {
          assert KeyLess(b[0].key, a[0].key);
          if i > 0 { KeyLessTotal(a[0].key, a[i].key); } else { KeyLessIrreflexive(a[0].key); }
        }
        assert b[1..][k - 1] == x;
      }
      IncreasingFits(a, b[1..]);
    }
  }

  lemma IncreasingFits<T>(a: seq<Entry<T>>, slots: seq<Entry<T>>)
    requires Increasing(a) && forall x :: x in a ==> x in slots
    ensures |a| <= |slots|
  {
    MembersCount(a);
    SlotsBound((set x | x in a), slots);
  }

  lemma {:induction false} MembersCount<T>(a: seq<Entry<T>>)
    requires Increasing(a)
    ensures |set x | x in a| == |a|
  {
    if a == [] {
    } else {
      var n := |a| - 1;
      MembersCount(a[..n]);
      KeyLessIrreflexive(a[n].key);
      assert a == a[..n] + [a[n]];
      assert (set x | x in a) == (set x | x in a[..n]) + {a[n]};
    }
  }

  lemma SortUnique<T>(a: seq<Entry<T>>, b: seq<Entry<T>>)
    requires DistinctKeys(a) && DistinctKeys(b) && |a| == |b|
    requires forall x :: x in a ==> x in b
    ensures SortByKey(a) == SortByKey(b)
  {
    SortIncreasing(a);
    SortIncreasing(b);
    SortLength(a);
    SortLength(b);
    forall x | x in SortByKey(a) ensures x in SortByKey(b) {
      SortMembers(a, x);
      SortMembers(b, x);
    }
    IncreasingUnique(SortByKey(a), SortByKey(b));
  }

  lemma {:induction false} EqualSameCanon(v: Value, w: Value)
    requires Equal(v, w)
    ensures Canon(v) == Canon(w)
    decreases v
  {
    match v
    case Bytes(_) =>
    case Int(_) =>
    case List(values) =>
      forall i | 0 <= i < |values| ensures CanonList(values)[i] == CanonList(w.values)[i] {
        CanonListAt(values, i);
        CanonListAt(w.values, i);
        EqualSameCanon(values[i], w.values[i]);
      }
      assert CanonList(values) == CanonList(w.values);
    case Dict(items) =>
      var a, b := CanonItems(items), CanonItems(w.items);
      CanonItemsDistinct(items);
      CanonItemsDistinct(w.items);
      forall x | x in a ensures x in b {
        var i :| 0 <= i < |a| && a[i] == x;
        var j :| 0 <= j < |w.items| && w.items[j].key == items[i].key && Equal(items[i].value, w.items[j].value);
        CanonItemsAt(items, i);
        CanonItemsAt(w.items, j);
        EqualSameCanon(items[i].value, w.items[j].value);
        assert b[j] == x;
      }
      SortUnique(a, b);
  }

  // Equal values encode to the same octets, whatever order their dictionaries
  // were filled in.
  lemma EqualSameEncoding(v: Value, w: Value)
    requires Equal(v, w)
    ensures Encode(v) == Encode(w)
  {
    EqualSameCanon(v, w);
    EncodeIsCanonInOrder(v);
    EncodeIsCanonInOrder(w);
  }

  // The canonical form is the same value.
  lemma {:induction false} CanonIsEqual(v: Value, depth: nat)
    requires Within(v, depth)
    ensures Equal(v, Canon(v))
    decreases v
  {
    hide Dec;
    match v
    case Bytes(_) =>
    case Int(_) =>
    case List(values) =>
      forall i | 0 <= i < |values| ensures Equal(values[i], CanonList(values)[i]) {
        CanonListAt(values, i);
        CanonIsEqual(values[i], depth + 1);
      }
    case Dict(items) =>
      var canon := CanonItems(items);
      var sorted := SortByKey(canon);
      CanonItemsDistinct(items);
      SortIncreasing(canon);
      IncreasingIsDistinct(sorted);
      SortLength(canon);
      forall i | 0 <= i < |items|
        ensures exists j :: 0 <= j < |sorted| && sorted[j].key == items[i].key && Equal(items[i].value, sorted[j].value)
      {
        CanonItemsAt(items, i);
        CanonIsEqual(items[i].value, depth + 1);
        SortMembers(canon, canon[i]);
        assert canon[i] in canon;
        var j :| 0 <= j < |sorted| && sorted[j] == canon[i];
      }
  }
}
