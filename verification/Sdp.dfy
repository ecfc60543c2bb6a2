// Reading and rewriting one-stream SDP bodies (media/rtp_module.py; sections 5.7
// and 5.14 of RFC 8866).  Bodies are ASCII text, so one character is one octet.
module Sdp {
  import opened PythonInt
  import opened Text

  const MAX_SDP := 65535
  const CRLF := "\r\n"

  // An IP address in its canonical spelling.
  datatype Address = Address(text: string, v6: bool)

  // How texts are read as addresses: None when the text is not an address or is
  // the unspecified one.
  type Resolver = string -> Option<Address>

  // The spelling of this one address reads back as the address and stays on one
  // line of a body.
  predicate CanonicalAt(ip: Resolver, s: string) {
    ip(s).Some? ==>
      && ip(ip(s).value.text) == ip(s)
      && forall i :: 0 <= i < |ip(s).value.text| ==> ip(s).value.text[i] !in "\r\n\0"
  }

  // --- Lines ---

  function FindCrlf(s: string, from: nat): (at: nat)
    requires from <= |s|
    ensures from <= at <= |s|
    ensures at < |s| ==> at + 1 < |s| && s[at] == '\r' && s[at + 1] == '\n'
    ensures forall i :: from <= i < at && i + 1 < |s| ==> !(s[i] == '\r' && s[i + 1] == '\n')
    decreases |s| - from
  {
    if from + 1 >= |s| then |s|
    else if s[from] == '\r' && s[from + 1] == '\n' then from
    else FindCrlf(s, from + 1)
  }

  function SplitLines(s: string): (lines: seq<string>)
    ensures lines != []
  {
    var at := FindCrlf(s, 0);
    if at == |s| then [s] else [s[..at]] + SplitLines(s[at + 2..])
  }

  function JoinLines(lines: seq<string>): string { Join(lines, CRLF) }

  predicate NoCrlf(line: string) {
    forall i :: 0 <= i < |line| - 1 ==> !(line[i] == '\r' && line[i + 1] == '\n')
  }

  // --- Words ---

  predicate IsSpace(c: char) {
    IsBlank(c) || 28 as char <= c <= 31 as char
  }

  function WordLength(s: string): (n: nat)
    ensures n <= |s|
    ensures forall i :: 0 <= i < n ==> !IsSpace(s[i])
    ensures n < |s| ==> IsSpace(s[n])
  {
    if s == "" || IsSpace(s[0]) then 0 else 1 + WordLength(s[1..])
  }

  function Words(s: string): seq<string>
    decreases |s|
  {
    if s == "" then []
    else if IsSpace(s[0]) then Words(s[1..])
    else
      var n := WordLength(s);
      [s[..n]] + Words(s[n..])
  }

  // --- Reading ---

  predicate IsConnection(line: string) {
    HasPrefix(line, "c=IN IP4 ") || HasPrefix(line, "c=IN IP6 ")
  }

  predicate IsAudio(line: string) { HasPrefix(line, "m=audio ") }

  function AddressOf(line: string, ip: Resolver): Option<Address>
    requires IsConnection(line)
  {
    ip(line[9..])
  }

  function AudioPort(line: string): Result<int> {
    var fields := Words(line);
    if |fields| < 4 then Err("malformed audio media line")
    else
      var port := PyInt(fields[1]);
      if port.None? || !(1 <= port.value <= 65535) then Err("invalid audio media port") else Ok(port.value)
  }

  datatype Description = Description(address: string, port: int, mediaLine: nat)

  datatype Found = Found(connection: Option<Address>, media: Option<(nat, int)>)

  // One line of the scan.
  function ScanLine(line: string, index: nat, found: Found, ip: Resolver): Result<Found> {
    if IsConnection(line) then
      var address := AddressOf(line, ip);
      if address.None? then Ok(found)
      else if found.connection.Some? then Err("multiple connection addresses are unsupported")
      else Ok(found.(connection := address))
    else if IsAudio(line) then
      if found.media.Some? then Err("multiple audio streams are unsupported")
      else
        var port := AudioPort(line);
        if port.Err? then Err(port.error) else Ok(found.(media := Some((index, port.value))))
    else Ok(found)
  }

  function Scan(lines: seq<string>, n: nat, ip: Resolver): Result<Found>
    requires n <= |lines|
  {
    if n == 0 then Ok(Found(None, None))
    else
      var before := Scan(lines, n - 1, ip);
      if before.Err? then before else ScanLine(lines[n - 1], n - 1, before.value, ip)
  }

  predicate Admissible(sdp: string) {
    1 <= |sdp| <= MAX_SDP && !Contains(sdp, '\0') && HasPrefix(sdp, "v=0\r\n")
  }

  function ParseSdp(sdp: string, ip: Resolver): Result<Description> {
    if !(1 <= |sdp| <= MAX_SDP) then Err("SDP exceeds limit")
    else if !Admissible(sdp) then Err("SDP must start with v=0")
    else
      var lines := SplitLines(sdp);
      var found := Scan(lines, |lines|, ip);
      if found.Err? then Err(found.error)
      else if found.value.media.None? || found.value.connection.None? then
        Err("SDP needs one routable audio stream")
      else
        Ok(Description(found.value.connection.value.text, found.value.media.value.1, found.value.media.value.0))
  }

  method ParseSdpLoop(sdp: string, ip: Resolver) returns (r: Result<Description>)
    ensures r == ParseSdp(sdp, ip)
  {
    hide IsConnection, IsAudio, PyInt, Words, AudioPort;
    if !(1 <= |sdp| <= MAX_SDP) { return Err("SDP exceeds limit"); }
    if !Admissible(sdp) { return Err("SDP must start with v=0"); }
    var lines := SplitLines(sdp);
    var connection: Option<Address> := None;
    var media: Option<(nat, int)> := None;
    for index := 0 to |lines|
      invariant Scan(lines, index, ip) == Ok(Found(connection, media))
    {
      var next := ScanLine(lines[index], index, Found(connection, media), ip);
      if next.Err? {
        ScanStopsAt(lines, index + 1, |lines|, ip);
        return Err(next.error);
      }
      connection, media := next.value.connection, next.value.media;
    }
    if media.None? || connection.None? { return Err("SDP needs one routable audio stream"); }
    return Ok(Description(connection.value.text, media.value.1, media.value.0));
  }

  lemma {:induction false} ScanStopsAt(lines: seq<string>, n: nat, m: nat, ip: Resolver)
    requires n <= m <= |lines| && Scan(lines, n, ip).Err?
    ensures Scan(lines, m, ip) == Scan(lines, n, ip)
  {
    if n == m {
    } else {
      ScanStopsAt(lines, n, m - 1, ip);
    }
  }

  // --- Rewriting ---

  function FirstConnection(lines: seq<string>): (i: nat)
    ensures i <= |lines|
    ensures i < |lines| ==> IsConnection(lines[i])
    ensures forall k :: 0 <= k < i ==> !IsConnection(lines[k])
  {
    if lines == [] || IsConnection(lines[0]) then 0 else 1 + FirstConnection(lines[1..])
  }

  function FirstAudio(lines: seq<string>): (i: nat)
    ensures i <= |lines|
    ensures i < |lines| ==> IsAudio(lines[i])
    ensures forall k :: 0 <= k < i ==> !IsAudio(lines[k])
  {
    if lines == [] || IsAudio(lines[0]) then 0 else 1 + FirstAudio(lines[1..])
  }

  function ConnectionLine(a: Address): string {
    (if a.v6 then "c=IN IP6 " else "c=IN IP4 ") + a.text
  }

  function AudioLine(fields: seq<string>, port: nat): string
    requires |fields| >= 4
  {
    Join(fields[1 := Dec(port)], " ")
  }

  function RewriteLines(lines: seq<string>, a: Address, port: nat): Result<seq<string>> {
    var c, m := FirstConnection(lines), FirstAudio(lines);
    if c == |lines| || m == |lines| then Err("SDP needs one connection and audio line")
    else
      var fields := Words(lines[m]);
      if |fields| < 4 then Err("malformed audio media line")
      else Ok(lines[c := ConnectionLine(a)][m := AudioLine(fields, port)])
  }

  function RewriteSdp(sdp: string, advertised: string, port: int, ip: Resolver): Result<string> {
    if !(1 <= port <= 65535) then Err("invalid relay port")
    else if ip(advertised).None? then Err("invalid advertised media address")
    else
      var lines := RewriteLines(SplitLines(sdp), ip(advertised).value, port);
      if lines.Err? then Err(lines.error) else Ok(JoinLines(lines.value))
  }
}
