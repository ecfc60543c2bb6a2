// Where each field stands in the octets, told apart from how they are printed and
// parsed: network byte order (sections 3 and 4.1 of RFC 6733) and bencode.
module WireLayouts {
  import opened Bencode
  import opened Diameter
  import opened Text

  // The number that octets spell, most significant first.
  function BigEndian(b: bytes): nat {
    if b == [] then 0 else 256 * BigEndian(b[..|b| - 1]) + b[|b| - 1]
  }

  lemma ReadsBigEndian(b: bytes)
    ensures |b| == 3 ==> ReadU24(b) == BigEndian(b)
    ensures |b| == 4 ==> ReadU32(b) == BigEndian(b)
  {
    if |b| == 3 {
      ThreeOctets(b);
    } else if |b| == 4 {
      assert b[1..][0] == b[1] && b[1..][1] == b[2] && b[1..][2] == b[3];
      assert b[..3][0] == b[0] && b[..3][1] == b[1] && b[..3][2] == b[2];
      ThreeOctets(b[..3]);
    }
  }

  lemma ThreeOctets(b: bytes)
    requires |b| == 3
    ensures BigEndian(b) == 65536 * b[0] as int + 256 * b[1] as int + b[2] as int
  {
    assert b[..2][..1] == b[..1] && b[..1][..0] == [];
    assert BigEndian(b[..1]) == b[0] as int;
    assert BigEndian(b[..2]) == 256 * BigEndian(b[..2][..1]) + b[1];
  }

  // An AVP: code, flags, length without padding, vendor if the flag says so, value,
  // zeros up to a multiple of four.
  lemma AvpLayout(a: Avp)
    requires Representable(a)
    ensures var raw, start := Wire(a), if a.flags >= 0x80 then 12 else 8;
      var end := start + |a.value|;
      && end <= |raw| < end + 4 && |raw| % 4 == 0
      && BigEndian(raw[0..4]) == a.code && raw[4] == a.flags && BigEndian(raw[5..8]) == end
      && (a.vendor.Some? <==> a.flags >= 0x80) && (a.vendor.Some? ==> BigEndian(raw[8..12]) == a.vendor.value)
      && raw[start..end] == a.value && forall i :: end <= i < |raw| ==> raw[i] == 0
  {
    var raw, start := Wire(a), HeaderLength(a.flags);
    var length := start + |a.value|;
    WireLength(a);
    assert raw[0..4] == U32(a.code) && raw[5..8] == U24(length);
    ReadsBigEndian(raw[0..4]);
    ReadsBigEndian(raw[5..8]);
    U32RoundTrip(a.code);
    U24RoundTrip(length);
    if a.vendor.Some? {
      assert raw[8..12] == U32(a.vendor.value);
      ReadsBigEndian(raw[8..12]);
      U32RoundTrip(a.vendor.value);
    }
    assert raw[start..length] == a.value;
  }

  // A message: version 1, length, flags, command, application, the two identifiers,
  // AVPs.
  lemma MessageLayout(flags: byte, command: int, application: int, hopByHop: int, endToEnd: int, body: bytes)
    requires BuildMessage(flags, command, application, hopByHop, endToEnd, body).Ok?
    ensures var raw := BuildMessage(flags, command, application, hopByHop, endToEnd, body).value;
      && |raw| == 20 + |body| && raw[0] == 1 && BigEndian(raw[1..4]) == |raw| && raw[4] == flags
      && BigEndian(raw[5..8]) == command && BigEndian(raw[8..12]) == application
      && BigEndian(raw[12..16]) == hopByHop && BigEndian(raw[16..20]) == endToEnd && raw[20..] == body
  {
    hide U24, U32;
    var raw := BuildMessage(flags, command, application, hopByHop, endToEnd, body).value;
    assert raw[1..4] == U24(20 + |body|) && raw[5..8] == U24(command) && raw[8..12] == U32(application);
    assert raw[12..16] == U32(hopByHop) && raw[16..20] == U32(endToEnd) && raw[20..] == body;
    U24RoundTrip(20 + |body|);
    U24RoundTrip(command);
    U32RoundTrip(application);
    U32RoundTrip(hopByHop);
    U32RoundTrip(endToEnd);
    ReadsBigEndian(raw[1..4]);
    ReadsBigEndian(raw[5..8]);
    ReadsBigEndian(raw[8..12]);
    ReadsBigEndian(raw[12..16]);
    ReadsBigEndian(raw[16..20]);
  }

  // Each kind of bencode value, by its octets: "i" digits "e", length ":" octets,
  // "l" elements "e", "d" keys with values "e".
  lemma BencodeLayout(i: int, b: bytes, v: Value, key: bytes)
    ensures Encode(Int(i)) == Ascii("i") + Ascii(IntText(i)) + Ascii("e")
    ensures Encode(Bytes(b)) == Ascii(Dec(|b|)) + Ascii(":") + b
    ensures Encode(List([])) == Ascii("le") && Encode(Dict([])) == Ascii("de")
    ensures Encode(List([v, Bytes(b)])) == Ascii("l") + Encode(v) + Encode(Bytes(b)) + Ascii("e")
    ensures Encode(Dict([Entry(key, v)])) == Ascii("d") + Encode(Bytes(key)) + Encode(v) + Ascii("e")
  {
    Letters();
    ListLayout(b, v);
    hide Dec, IntText, Ascii, EncodeList, JoinEntries, SortByKey, EncodeItems;
    OneEntryLayout(key, v);
  }

  lemma Letters()
    ensures Ascii("i") == [105] && Ascii("e") == [101] && Ascii(":") == [58] && Ascii("l") == [108] && Ascii("d") == [100]
    ensures Ascii("le") == [108] + [101] && Ascii("de") == [100] + [101]
    ensures Encode(Dict([])) == [100] + [101]
  {
  }

  lemma ListLayout(b: bytes, v: Value)
    ensures Encode(List([])) == [108] + [101]
    ensures Encode(List([v, Bytes(b)])) == [108] + Encode(v) + Encode(Bytes(b)) + [101]
  {
    hide EncodeBytes;
    assert [v, Bytes(b)][1..] == [Bytes(b)] && [Bytes(b)][1..] == [];
    assert EncodeList([Bytes(b)]) == Encode(Bytes(b)) + EncodeList([]);
    assert EncodeList([v, Bytes(b)]) == Encode(v) + EncodeList([Bytes(b)]);
    assert [108] + (Encode(v) + Encode(Bytes(b))) + [101] == [108] + Encode(v) + Encode(Bytes(b)) + [101];
  }

  lemma OneEntryLayout(key: bytes, v: Value)
    ensures Encode(Dict([Entry(key, v)])) == [100] + EncodeBytes(key) + Encode(v) + [101]
  {
    hide EncodeBytes;
    var e := Entry(key, Encode(v));
    var items := [Entry(key, v)];
    assert items[1..] == [] && EncodeItems(items) == [e];
    assert [e][..0] == [] && SortByKey([e]) == [e];
    assert [e][1..] == [] && JoinEntries([e]) == EncodeBytes(key) + Encode(v);
  }
}
