// The bounded bencode codec of media/rtp_module.py.  Text is modelled as its
// octets; a dictionary is its items in insertion order.
module Bencode {
  import opened PythonInt
  import opened Text

  const MAX_CONTROL_PACKET := 65535
  const MAX_DEPTH := 32
  const MAX_LIST := 32
  const MAX_DICT := 64

  datatype Value =
    | Bytes(b: bytes)
    | Int(i: int)
    | List(values: seq<Value>)
    | Dict(items: seq<Entry<Value>>)

  datatype Entry<T> = Entry(key: bytes, value: T)

  // --- Sorting items by key ---

  predicate KeyLess(a: bytes, b: bytes) {
    b != [] && (a == [] || a[0] < b[0] || (a[0] == b[0] && KeyLess(a[1..], b[1..])))
  }

  function InsertByKey<T>(item: Entry<T>, sorted: seq<Entry<T>>): seq<Entry<T>> {
    if sorted == [] || KeyLess(item.key, sorted[0].key) then [item] + sorted
    else [sorted[0]] + InsertByKey(item, sorted[1..])
  }

  function SortByKey<T>(items: seq<Entry<T>>): seq<Entry<T>> {
    if items == [] then [] else InsertByKey(items[|items| - 1], SortByKey(items[..|items| - 1]))
  }

  // --- Encoding ---

  function EncodeBytes(b: bytes): bytes { Ascii(Dec(|b|)) + [58] + b }

  function Encode(v: Value): bytes
    decreases v, 0
  {
    match v
    case Bytes(b) => EncodeBytes(b)
    case Int(i) => [105] + Ascii(IntText(i)) + [101]
    case List(values) => [108] + EncodeList(values) + [101]
    case Dict(items) => [100] + JoinEntries(SortByKey(EncodeItems(items))) + [101]
  }

  function EncodeList(values: seq<Value>): bytes
    decreases values, 1
  {
    if values == [] then [] else Encode(values[0]) + EncodeList(values[1..])
  }

  // Each key with its value's encoding.
  function EncodeItems(items: seq<Entry<Value>>): seq<Entry<bytes>>
    decreases items, 1
  {
    if items == [] then [] else [Entry(items[0].key, Encode(items[0].value))] + EncodeItems(items[1..])
  }

  function JoinEntries(entries: seq<Entry<bytes>>): bytes {
    if entries == [] then [] else EncodeBytes(entries[0].key) + entries[0].value + JoinEntries(entries[1..])
  }

  function BencodeDict(v: Value): Result<bytes> {
    if |Encode(v)| > MAX_CONTROL_PACKET then Err("control response too large") else Ok(Encode(v))
  }

  // --- Decoding ---

  function FindByte(data: bytes, b: byte, from: nat): (at: nat)
    requires from <= |data|
    ensures from <= at <= |data|
    ensures at < |data| ==> data[at] == b
    ensures forall i :: from <= i < at ==> data[i] != b
    decreases |data| - from
  {
    if from == |data| || data[from] == b then from else FindByte(data, b, from + 1)
  }

  predicate IsAsciiDigit(b: byte) { 48 <= b <= 57 }

  function DecodeInt(data: bytes, offset: nat): Result<(Value, nat)>
    requires offset < |data|
  {
    var end := FindByte(data, 101, offset + 1);
    if end == |data| then Err("unterminated integer")
    else
      var raw := Latin(data[offset + 1..end]);
      if raw == "" || (raw[0] == '0' && raw != "0") || raw == "-0" then Err("invalid integer")
      else
        var parsed := PyInt(raw);
        if parsed.None? then Err("invalid integer") else Ok((Int(parsed.value), end + 1))
  }

  function DecodeString(data: bytes, offset: nat): Result<(Value, nat)>
    requires offset < |data|
  {
    var colon := FindByte(data, 58, offset);
    if colon == |data| || colon - offset > 6 then Err("invalid byte-string length")
    else
      var raw := Latin(data[offset..colon]);
      if raw == "" || (raw[0] == '0' && raw != "0") then Err("invalid byte-string length")
      else
        var length := PyInt(raw);
        if length.None? then Err("invalid byte-string length")
        else if length.value < 0 || length.value > MAX_CONTROL_PACKET || colon + 1 + length.value > |data| then
          Err("byte-string exceeds limit")
        else Ok((Bytes(data[colon + 1..colon + 1 + length.value]), colon + 1 + length.value))
  }

  function Decode(data: bytes, offset: nat, depth: nat): (r: Result<(Value, nat)>)
    ensures r.Ok? ==> offset < r.value.1 <= |data|
    decreases |data| - offset, 0
  {
    if offset >= |data| then Err("truncated bencode")
    else if depth > MAX_DEPTH then Err("bencode nesting exceeds limit")
    else if data[offset] == 105 then DecodeInt(data, offset)
    else if data[offset] == 108 then DecodeList(data, offset + 1, depth, [])
    else if data[offset] == 100 then DecodeDict(data, offset + 1, depth, [])
    else if IsAsciiDigit(data[offset]) then DecodeString(data, offset)
    else Err("unknown bencode marker")
  }

  function DecodeList(data: bytes, cursor: nat, depth: nat, done: seq<Value>): (r: Result<(Value, nat)>)
    ensures r.Ok? ==> cursor < r.value.1 <= |data|
    decreases |data| - cursor, 1
  {
    if cursor >= |data| then Err("unterminated list")
    else if data[cursor] == 101 then Ok((List(done), cursor + 1))
    else
      var element := Decode(data, cursor, depth + 1);
      if element.Err? then element
      else if |done| + 1 > MAX_LIST then Err("list too large")
      else DecodeList(data, element.value.1, depth, done + [element.value.0])
  }

  predicate HasKey(items: seq<Entry<Value>>, key: bytes) {
    exists i :: 0 <= i < |items| && items[i].key == key
  }

  function DecodeDict(data: bytes, cursor: nat, depth: nat, done: seq<Entry<Value>>): (r: Result<(Value, nat)>)
    ensures r.Ok? ==> cursor < r.value.1 <= |data|
    decreases |data| - cursor, 1
  {
    if cursor >= |data| then Err("unterminated dictionary")
    else if data[cursor] == 101 then Ok((Dict(done), cursor + 1))
    else
      var key := Decode(data, cursor, depth + 1);
      if key.Err? then key
      else if !key.value.0.Bytes? then Err("dictionary key must be a byte string")
      else if HasKey(done, key.value.0.b) then Err("duplicate dictionary key")
      else
        var item := Decode(data, key.value.1, depth + 1);
        if item.Err? then item
        else if |done| + 1 > MAX_DICT then Err("dictionary too large")
        else DecodeDict(data, item.value.1, depth, done + [Entry(key.value.0.b, item.value.0)])
  }

  function BdecodeDict(data: bytes): Result<Value> {
    if data == [] || |data| > MAX_CONTROL_PACKET then Err("invalid control payload size")
    else
      var r := Decode(data, 0, 0);
      if r.Err? then Err(r.error)
      else if r.value.1 != |data| || !r.value.0.Dict? then Err("control payload must be one dictionary")
      else Ok(r.value.0)
  }

  // The decoder as the module runs it: cursor loops that fill lists and dicts.
  method BDecode(data: bytes, offset: nat, depth: nat) returns (r: Result<(Value, nat)>)
    ensures r == Decode(data, offset, depth)
    decreases |data| - offset, 0
  {
    if offset >= |data| { return Err("truncated bencode"); }
    if depth > MAX_DEPTH { return Err("bencode nesting exceeds limit"); }
    var marker := data[offset];
    if marker == 105 { return DecodeInt(data, offset); }
    if marker == 108 {
      r := BDecodeList(data, offset + 1, depth);
    } else if marker == 100 {
      r := BDecodeDict(data, offset + 1, depth);
    } else if IsAsciiDigit(marker) {
      r := DecodeString(data, offset);
    } else {
      r := Err("unknown bencode marker");
    }
  }

  method BDecodeList(data: bytes, start: nat, depth: nat) returns (r: Result<(Value, nat)>)
    ensures r == DecodeList(data, start, depth, [])
    decreases |data| - start, 1
  {
    var values: seq<Value> := [];
    var cursor := start;
    while true
      invariant start <= cursor
      invariant DecodeList(data, start, depth, []) == DecodeList(data, cursor, depth, values)
      decreases |data| - cursor
    {
      if cursor >= |data| { return Err("unterminated list"); }
      if data[cursor] == 101 { return Ok((List(values), cursor + 1)); }
      var element := BDecode(data, cursor, depth + 1);
      if element.Err? { return element; }
      values := values + [element.value.0];
      if |values| > MAX_LIST { return Err("list too large"); }
      cursor := element.value.1;
    }
  }

  method BDecodeDict(data: bytes, start: nat, depth: nat) returns (r: Result<(Value, nat)>)
    ensures r == DecodeDict(data, start, depth, [])
    decreases |data| - start, 1
  {
    var items: seq<Entry<Value>> := [];
    var cursor := start;
    while true
      invariant start <= cursor
      invariant DecodeDict(data, start, depth, []) == DecodeDict(data, cursor, depth, items)
      decreases |data| - cursor
    {
      if cursor >= |data| { return Err("unterminated dictionary"); }
      if data[cursor] == 101 { return Ok((Dict(items), cursor + 1)); }
      var key := BDecode(data, cursor, depth + 1);
      if key.Err? { return key; }
      if !key.value.0.Bytes? { return Err("dictionary key must be a byte string"); }
      if HasKey(items, key.value.0.b) { return Err("duplicate dictionary key"); }
      var item := BDecode(data, key.value.1, depth + 1);
      if item.Err? { return item; }
      items := items + [Entry(key.value.0.b, item.value.0)];
      if |items| > MAX_DICT { return Err("dictionary too large"); }
      cursor := item.value.1;
    }
  }
}
