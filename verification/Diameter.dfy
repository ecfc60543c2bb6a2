// The Diameter codec of lab/ims_hss.py: AVPs (section 4.1 of RFC 6733) and
// messages (section 3 of RFC 6733), printed and parsed.
module Diameter {
  import opened Text

  const MAX_DIAMETER := 1048576
  const MAX_AVP_VALUE := 65519
  const U24_LIMIT := 0x100_0000
  const U32_LIMIT := 0x1_0000_0000

  // --- Fixed-width integers ---

  function U24(v: nat): (r: bytes)
    requires v < U24_LIMIT
    ensures |r| == 3
  {
    [v / 65536, v / 256 % 256, v % 256]
  }

  function ReadU24(b: bytes): (v: nat)
    requires |b| == 3
    ensures v < U24_LIMIT
  {
    b[0] as int * 65536 + b[1] as int * 256 + b[2] as int
  }

  function U32(v: nat): (r: bytes)
    requires v < U32_LIMIT
    ensures |r| == 4
  {
    [v / 16777216] + U24(v % 16777216)
  }

  function ReadU32(b: bytes): (v: nat)
    requires |b| == 4
    ensures v < U32_LIMIT
  {
    b[0] as int * 16777216 + ReadU24(b[1..])
  }

  lemma U24RoundTrip(v: nat)
    requires v < U24_LIMIT
    ensures ReadU24(U24(v)) == v
  {
  }

  lemma ReadU24RoundTrip(b: bytes)
    requires |b| == 3
    ensures U24(ReadU24(b)) == b
  {
    var v := ReadU24(b);
    assert v / 256 == b[0] as int * 256 + b[1] as int;
  }

  lemma U32RoundTrip(v: nat)
    requires v < U32_LIMIT
    ensures ReadU32(U32(v)) == v
  {
    assert U32(v)[1..] == U24(v % 16777216);
    U24RoundTrip(v % 16777216);
  }

  lemma ReadU32RoundTrip(b: bytes)
    requires |b| == 4
    ensures U32(ReadU32(b)) == b
  {
    ReadU24RoundTrip(b[1..]);
    assert b == [b[0]] + b[1..];
  }

  // --- AVPs ---

  datatype Avp = Avp(code: nat, flags: byte, vendor: Option<nat>, value: bytes)

  predicate HasVendor(flags: byte) { flags >= 0x80 }

  function HeaderLength(flags: byte): nat { if HasVendor(flags) then 12 else 8 }

  function PaddingLength(length: nat): nat { (4 - length % 4) % 4 }

  function Zeros(n: nat): (r: bytes)
    ensures |r| == n
  {
    seq(n, i => 0)
  }

  // Everything the wire format can carry.
  predicate Representable(a: Avp) {
    && 1 <= a.code < U32_LIMIT
    && (a.vendor.Some? <==> HasVendor(a.flags))
    && (a.vendor.Some? ==> a.vendor.value < U32_LIMIT)
    && HeaderLength(a.flags) + |a.value| < U24_LIMIT
  }

  // The one wire form of an AVP, with zero padding to a multiple of four.
  function Wire(a: Avp): bytes
    requires Representable(a)
  {
    var length := HeaderLength(a.flags) + |a.value|;
    U32(a.code) + [a.flags] + U24(length)
    + (if a.vendor.Some? then U32(a.vendor.value) else []) + a.value + Zeros(PaddingLength(length))
  }

  // The narrower bounds within which the adapter itself prints AVPs.
  predicate Printable(a: Avp) {
    && 1 <= a.code <= 0xFFFFFF
    && |a.value| <= MAX_AVP_VALUE
    && (a.vendor.Some? <==> HasVendor(a.flags))
    && (a.vendor.Some? ==> 1 <= a.vendor.value < U32_LIMIT)
  }

  function PrintAvp(code: int, value: bytes, flags: byte, vendor: Option<int>): Result<bytes> {
    if !(1 <= code <= 0xFFFFFF) || |value| > MAX_AVP_VALUE then Err("invalid AVP")
    else if vendor.Some? && !(1 <= vendor.value < U32_LIMIT) then Err("invalid AVP vendor")
    else
      var marked: byte := if vendor.Some? && flags < 0x80 then flags + 0x80 else flags;
      var body := if vendor.Some? then U32(vendor.value) + value else value;
      var length := 8 + |body|;
      var raw := U32(code) + [marked] + U24(length) + body;
      Ok(raw + Zeros(PaddingLength(length)))
  }

  // Printing is the wire form, unless the caller sets the vendor bit by hand.
  lemma PrintAvpIsWire(a: Avp)
    requires Printable(a)
    ensures Representable(a)
    ensures PrintAvp(a.code, a.value, a.flags, a.vendor) == Ok(Wire(a))
    ensures a.vendor.Some? ==> PrintAvp(a.code, a.value, a.flags - 0x80, a.vendor) == Ok(Wire(a))
  {
    var head := U32(a.code) + [a.flags] + U24(HeaderLength(a.flags) + |a.value|);
    if a.vendor.Some? {
      assert head + (U32(a.vendor.value) + a.value) == head + U32(a.vendor.value) + a.value;
    } else {
      assert head + [] == head;
    }
  }

  // --- Parsing ---

  // The first AVP of a non-empty region and the octets it takes up.
  function ParseAvp(raw: bytes): Result<(Avp, nat)> {
    if |raw| < 8 then Err("truncated AVP")
    else
      var code, flags, length := ReadU32(raw[0..4]), raw[4], ReadU24(raw[5..8]);
      var headerLength := HeaderLength(flags);
      if code == 0 || length < headerLength || length > |raw| then Err("invalid AVP length")
      else
        var vendor := if HasVendor(flags) then Some(ReadU32(raw[8..12])) else None;
        var padding := PaddingLength(length);
        if length + padding > |raw| || raw[length..length + padding] != Zeros(padding) then
          Err("invalid AVP padding")
        else Ok((Avp(code, flags, vendor, raw[headerLength..length]), length + padding))
  }

  lemma ParsedLength(raw: bytes)
    requires ParseAvp(raw).Ok?
    ensures 8 <= ParseAvp(raw).value.1 <= |raw|
    ensures ParseAvp(raw).value.1 % 4 == 0
  {
  }

  function ParseAvps(raw: bytes): Result<seq<Avp>> {
    if raw == [] then Ok([])
    else
      var first := ParseAvp(raw);
      if first.Err? then Err(first.error)
      else
        ParsedLength(raw);
        var rest := ParseAvps(raw[first.value.1..]);
        if rest.Err? then rest else Ok([first.value.0] + rest.value)
  }

  // The body of the parsing loop: the AVP at `offset`.
  method ParseAvpAt(raw: bytes, offset: nat) returns (r: Result<(Avp, nat)>)
    requires offset < |raw|
    ensures r == ParseAvp(raw[offset..])
  {
    ghost var here := raw[offset..];
    if |raw| - offset < 8 { return Err("truncated AVP"); }
    var code := ReadU32(raw[offset..offset + 4]);
    var flags := raw[offset + 4];
    var length := ReadU24(raw[offset + 5..offset + 8]);
    assert here[0..4] == raw[offset..offset + 4] && here[5..8] == raw[offset + 5..offset + 8];
    var headerLength := if HasVendor(flags) then 12 else 8;
    if code == 0 || length < headerLength || offset + length > |raw| { return Err("invalid AVP length"); }
    var vendor: Option<nat> := None;
    if HasVendor(flags) {
      vendor := Some(ReadU32(raw[offset + 8..offset + 12]));
      assert here[8..12] == raw[offset + 8..offset + 12];
    }
    var padding := PaddingLength(length);
    if offset + length + padding > |raw| { return Err("invalid AVP padding"); }
    assert here[length..length + padding] == raw[offset + length..offset + length + padding];
    if raw[offset + length..offset + length + padding] != Zeros(padding) { return Err("invalid AVP padding"); }
    assert here[headerLength..length] == raw[offset + headerLength..offset + length];
    return Ok((Avp(code, flags, vendor, raw[offset + headerLength..offset + length]), length + padding));
  }

  method ParseAvpsLoop(raw: bytes) returns (r: Result<seq<Avp>>)
    ensures r == ParseAvps(raw)
  {
    hide ParseAvp;
    var values: seq<Avp> := [];
    var offset := 0;
    assert raw[0..] == raw;
    assert ParseAvps(raw).Ok? ==> values + ParseAvps(raw).value == ParseAvps(raw).value;
    while offset < |raw|
      invariant 0 <= offset <= |raw|
      invariant var rest := ParseAvps(raw[offset..]);
        ParseAvps(raw) == if rest.Err? then rest else Ok(values + rest.value)
    {
      var first := ParseAvpAt(raw, offset);
      if first.Err? { return Err(first.error); }
      var (avp, used) := first.value;
      ParsedLength(raw[offset..]);
      ParseAvpsStep(raw[offset..], avp, used);
      assert raw[offset..][used..] == raw[offset + used..];
      var tail := ParseAvps(raw[offset + used..]);
      assert tail.Ok? ==> values + ([avp] + tail.value) == (values + [avp]) + tail.value;
      values := values + [avp];
      offset := offset + used;
    }
    assert raw[offset..] == [];
    assert values + [] == values;
    return Ok(values);
  }

  // --- Printer and parser undo each other ---

  lemma WireLength(a: Avp)
    requires Representable(a)
    ensures |Wire(a)| == HeaderLength(a.flags) + |a.value| + PaddingLength(HeaderLength(a.flags) + |a.value|)
    ensures |Wire(a)| % 4 == 0
  {
  }

  lemma ParseOfWire(a: Avp, rest: bytes)
    requires Representable(a)
    ensures ParseAvp(Wire(a) + rest) == Ok((a, |Wire(a)|))
  {
    var raw, length, hl := Wire(a) + rest, HeaderLength(a.flags) + |a.value|, HeaderLength(a.flags);
    WireLength(a);
    assert raw[0..4] == U32(a.code) && raw[4] == a.flags && raw[5..8] == U24(length);
    U32RoundTrip(a.code);
    U24RoundTrip(length);
    if a.vendor.Some? {
      assert raw[8..12] == U32(a.vendor.value);
      U32RoundTrip(a.vendor.value);
    }
    assert raw[hl..length] == a.value;
    assert raw[length..length + PaddingLength(length)] == Zeros(PaddingLength(length));
  }

  lemma WireOfParse(raw: bytes)
    requires ParseAvp(raw).Ok?
    ensures var (a, used) := ParseAvp(raw).value;
      Representable(a) && used <= |raw| && Wire(a) == raw[..used]
  {
    var (a, used) := ParseAvp(raw).value;
    var length, hl := ReadU24(raw[5..8]), HeaderLength(raw[4]);
    ReadU32RoundTrip(raw[0..4]);
    ReadU24RoundTrip(raw[5..8]);
    if HasVendor(a.flags) { ReadU32RoundTrip(raw[8..12]); }
    assert raw[..8] == U32(a.code) + [a.flags] + U24(length);
    assert raw[..hl] == raw[..8] + (if a.vendor.Some? then U32(a.vendor.value) else []);
    assert raw[..length] == raw[..hl] + a.value;
    assert raw[..used] == raw[..length] + raw[length..used];
  }

  function WireAll(avps: seq<Avp>): bytes
    requires forall a :: a in avps ==> Representable(a)
  {
    if avps == [] then [] else Wire(avps[0]) + WireAll(avps[1..])
  }

  // One AVP split off the front.
  lemma ParseAvpsStep(raw: bytes, a: Avp, used: nat)
    requires ParseAvp(raw) == Ok((a, used)) && used <= |raw|
    ensures var rest := ParseAvps(raw[used..]);
      ParseAvps(raw) == if rest.Err? then rest else Ok([a] + rest.value)
  {
  }

  lemma {:induction false} ParseOfWireAll(avps: seq<Avp>)
    requires forall a :: a in avps ==> Representable(a)
    ensures ParseAvps(WireAll(avps)) == Ok(avps)
  {
    if avps == [] {
    } else {
      var first, rest := Wire(avps[0]), WireAll(avps[1..]);
      ParseOfWireAll(avps[1..]);
      assert ParseAvps(first + rest) == Ok([avps[0]] + avps[1..]) by {
        ParseOfWire(avps[0], rest);
        ParseOfCons(avps[0], first, rest, avps[1..]);
      }
      assert [avps[0]] + avps[1..] == avps;
    }
  }

  lemma {:induction false} WireAllLength(avps: seq<Avp>)
    requires forall a :: a in avps ==> Representable(a)
    ensures |WireAll(avps)| % 4 == 0
  {
    hide Wire, Representable;
    if avps == [] {
    } else {
      WireAllLength(avps[1..]);
      WireLength(avps[0]);
    }
  }

  lemma ParseOfCons(a: Avp, first: bytes, rest: bytes, avps: seq<Avp>)
    requires ParseAvp(first + rest) == Ok((a, |first|)) && ParseAvps(rest) == Ok(avps)
    ensures ParseAvps(first + rest) == Ok([a] + avps)
  {
    assert (first + rest)[|first|..] == rest;
    ParseAvpsStep(first + rest, a, |first|);
  }

  lemma {:induction false} WireAllOfParse(raw: bytes)
    requires ParseAvps(raw).Ok?
    ensures var avps := ParseAvps(raw).value;
      (forall a :: a in avps ==> Representable(a)) && WireAll(avps) == raw
    ensures |raw| % 4 == 0
    decreases |raw|
  {
    hide ParseAvp, Wire, Representable;
    if raw == [] {
    } else {
      var a, used := FirstOfParse(raw);
      WireAllOfParse(raw[used..]);
      WireCons(raw, a, used, ParseAvps(raw[used..]).value);
    }
  }

  lemma FirstOfParse(raw: bytes) returns (a: Avp, used: nat)
    requires raw != [] && ParseAvps(raw).Ok?
    ensures 0 < used <= |raw| && used % 4 == 0
    ensures Representable(a) && Wire(a) == raw[..used]
    ensures ParseAvps(raw[used..]).Ok? && ParseAvps(raw).value == [a] + ParseAvps(raw[used..]).value
  {
    a, used := ParseAvp(raw).value.0, ParseAvp(raw).value.1;
    ParsedLength(raw);
    ParseAvpsStep(raw, a, used);
    WireOfParse(raw);
  }

  lemma WireCons(raw: bytes, a: Avp, used: nat, avps: seq<Avp>)
    requires Representable(a) && forall x :: x in avps ==> Representable(x)
    requires used <= |raw| && Wire(a) == raw[..used] && WireAll(avps) == raw[used..]
    ensures forall x :: x in [a] + avps ==> Representable(x)
    ensures WireAll([a] + avps) == raw
  {
    assert ([a] + avps)[1..] == avps;
    assert raw == raw[..used] + raw[used..];
  }

  // Printing a list of AVPs the way the adapter does, failing as it does.
  function PrintAvps(avps: seq<Avp>): Result<bytes> {
    if avps == [] then Ok([])
    else
      var first := PrintAvp(avps[0].code, avps[0].value, avps[0].flags, avps[0].vendor);
      if first.Err? then first
      else
        var rest := PrintAvps(avps[1..]);
        if rest.Err? then rest else Ok(first.value + rest.value)
  }

  lemma {:induction false} PrintAvpsIsWire(avps: seq<Avp>)
    requires forall a :: a in avps ==> Printable(a)
    ensures forall a :: a in avps ==> Representable(a)
    ensures PrintAvps(avps) == Ok(WireAll(avps))
  {
    if avps == [] {
    } else {
      PrintAvpIsWire(avps[0]);
      PrintAvpsIsWire(avps[1..]);
    }
  }

  // Parsing what was printed returns exactly the printed AVPs, in order.
  lemma PrintThenParse(avps: seq<Avp>)
    requires forall a :: a in avps ==> Printable(a)
    ensures PrintAvps(avps).Ok? && ParseAvps(PrintAvps(avps).value) == Ok(avps)
  {
    PrintAvpsIsWire(avps);
    ParseOfWireAll(avps);
  }

  // Any accepted octets whose AVPs the adapter could print are re-printed
  // octet for octet.
  lemma ParseThenPrint(raw: bytes)
    requires ParseAvps(raw).Ok? && forall a :: a in ParseAvps(raw).value ==> Printable(a)
    ensures PrintAvps(ParseAvps(raw).value) == Ok(raw)
  {
    WireAllOfParse(raw);
    PrintAvpsIsWire(ParseAvps(raw).value);
  }

  // --- Messages ---

  datatype Message = Message(
    flags: byte, command: nat, application: nat, hopByHop: nat, endToEnd: nat, avps: seq<Avp>)
  {
    function Find(code: nat, vendor: Option<nat>): Option<bytes> {
      FindAvp(avps, code, vendor)
    }
  }

  function FindAvp(avps: seq<Avp>, code: nat, vendor: Option<nat>): Option<bytes> {
    if avps == [] then None
    else if avps[0].code == code && avps[0].vendor == vendor then Some(avps[0].value)
    else FindAvp(avps[1..], code, vendor)
  }

  function ParseMessage(raw: bytes): Result<Message> {
    if |raw| < 20 || raw[0] != 1 then Err("invalid Diameter header")
    else
      var length := ReadU24(raw[1..4]);
      if length < 20 || length > MAX_DIAMETER || length != |raw| then Err("invalid Diameter message length")
      else
        var avps := ParseAvps(raw[20..]);
        if avps.Err? then Err(avps.error)
        else
          Ok(Message(raw[4], ReadU24(raw[5..8]), ReadU32(raw[8..12]), ReadU32(raw[12..16]),
                     ReadU32(raw[16..20]), avps.value))
  }

  predicate HeaderInRange(command: int, application: int, hopByHop: int, endToEnd: int) {
    && 0 <= command < U24_LIMIT && 0 <= application < U32_LIMIT
    && 0 <= hopByHop < U32_LIMIT && 0 <= endToEnd < U32_LIMIT
  }

  function BuildMessage(flags: byte, command: int, application: int, hopByHop: int, endToEnd: int, body: bytes): Result<bytes> {
    var length := 20 + |body|;
    if length > MAX_DIAMETER then Err("Diameter message too large")
    else if !(0 <= command < U24_LIMIT) then Err("u24 out of range")
    else if !HeaderInRange(command, application, hopByHop, endToEnd) then Err("u32 out of range")
    else
      Ok([1] + U24(length) + [flags] + U24(command) + U32(application) + U32(hopByHop) + U32(endToEnd) + body)
  }

  // A built message parses back to its header fields and its body's AVPs.
  lemma BuildThenParse(flags: byte, command: int, application: int, hopByHop: int, endToEnd: int, body: bytes)
    requires BuildMessage(flags, command, application, hopByHop, endToEnd, body).Ok?
    ensures var raw := BuildMessage(flags, command, application, hopByHop, endToEnd, body).value;
      && |raw| == 20 + |body|
      && ParseMessage(raw) ==
         if ParseAvps(body).Err? then Err(ParseAvps(body).error)
         else Ok(Message(flags, command, application, hopByHop, endToEnd, ParseAvps(body).value))
  {
    var raw := BuildMessage(flags, command, application, hopByHop, endToEnd, body).value;
    assert raw[1..4] == U24(20 + |body|) && raw[4] == flags && raw[5..8] == U24(command);
    assert raw[8..12] == U32(application) && raw[12..16] == U32(hopByHop) && raw[16..20] == U32(endToEnd);
    assert raw[20..] == body;
    U24RoundTrip(20 + |body|);
    U24RoundTrip(command);
    U32RoundTrip(application);
    U32RoundTrip(hopByHop);
    U32RoundTrip(endToEnd);
  }

  // Every accepted message is what its own parts build, and is padded.
  lemma ParseThenBuild(raw: bytes)
    requires ParseMessage(raw).Ok?
    ensures var m := ParseMessage(raw).value;
      && (forall a :: a in m.avps ==> Representable(a))
      && BuildMessage(m.flags, m.command, m.application, m.hopByHop, m.endToEnd, WireAll(m.avps)) == Ok(raw)
    ensures |raw| % 4 == 0
  {
    var m := ParseMessage(raw).value;
    BodyOfParse(raw, m.avps);
    FieldsBuild(raw, m, WireAll(m.avps));
  }

  lemma BodyOfParse(raw: bytes, avps: seq<Avp>)
    requires 20 <= |raw| && ParseAvps(raw[20..]) == Ok(avps)
    ensures forall a :: a in avps ==> Representable(a)
    ensures WireAll(avps) == raw[20..] && |raw| % 4 == 0
  {
    WireAllOfParse(raw[20..]);
    TwentyMore(|raw|, |raw[20..]|);
  }

  lemma TwentyMore(total: nat, body: nat)
    requires total == 20 + body && body % 4 == 0
    ensures total % 4 == 0
  {
  }

  lemma FieldsBuild(raw: bytes, m: Message, body: bytes)
    requires 20 <= |raw| <= MAX_DIAMETER && raw[0] == 1 && ReadU24(raw[1..4]) == |raw| && body == raw[20..]
    requires m.flags == raw[4] && m.command == ReadU24(raw[5..8]) && m.application == ReadU32(raw[8..12])
    requires m.hopByHop == ReadU32(raw[12..16]) && m.endToEnd == ReadU32(raw[16..20])
    ensures BuildMessage(m.flags, m.command, m.application, m.hopByHop, m.endToEnd, body) == Ok(raw)
  {
    BuildFromFields(raw);
  }

  // The header fields and the body, put together again.
  lemma BuildFromFields(raw: bytes)
    requires 20 <= |raw| <= MAX_DIAMETER && raw[0] == 1 && ReadU24(raw[1..4]) == |raw|
    ensures BuildMessage(raw[4], ReadU24(raw[5..8]), ReadU32(raw[8..12]), ReadU32(raw[12..16]),
                         ReadU32(raw[16..20]), raw[20..]) == Ok(raw)
  {
    ReadU24RoundTrip(raw[1..4]);
    ReadU24RoundTrip(raw[5..8]);
    ReadU32RoundTrip(raw[8..12]);
    ReadU32RoundTrip(raw[12..16]);
    ReadU32RoundTrip(raw[16..20]);
    assert raw == [raw[0]] + raw[1..4] + [raw[4]] + raw[5..8] + raw[8..12] + raw[12..16] + raw[16..20] + raw[20..];
  }
}
