// Bodies of a call on hold that can arrive: the first connection line does not
// route, and the audio line is as long as wanted.
module SdpExamples {
  import opened PythonInt
  import opened Sdp
  import opened SdpLaws
  import opened Text

  const ROUTED := "c=IN IP4 1.1.1.1"
  const HELD := "c=IN IP4 0.0.0.0"
  const HELD6 := "c=IN IP6 ::"

  function Audio(format: string): string { "m=audio 1 RTP/AVP " + format }

  function HeldBody(held: string, format: string): seq<string> { ["v=0", held, Audio(format), ROUTED] }

  function Zeros(n: nat): string { seq(n, _ => '0') }

  // --- The three kinds of lines ---

  lemma WordsOfFour(a: string, b: string, c: string, d: string)
    requires IsWord(a) && IsWord(b) && IsWord(c) && IsWord(d)
    ensures Words(a + " " + b + " " + c + " " + d) == [a, b, c, d]
    ensures Join([a, b, c, d], " ") == a + " " + b + " " + c + " " + d
  {
    hide Words, IsWord;
    JoinOfFour(a, b, c, d);
    WordsOfJoin([a, b, c, d]);
  }

  lemma JoinOfFour(a: string, b: string, c: string, d: string)
    ensures Join([a, b, c, d], " ") == a + " " + b + " " + c + " " + d
  {
    var words := [a, b, c, d];
    assert words[1..] == [b, c, d] && words[1..][1..] == [c, d] && words[1..][1..][1..] == [d];
    assert Join([d], " ") == d;
    assert Join([c, d], " ") == c + " " + d;
    assert Join([b, c, d], " ") == b + " " + (c + " " + d);
    assert Join(words, " ") == a + " " + (b + " " + (c + " " + d));
  }

  predicate IsFormat(format: string) { format != "" && forall i :: 0 <= i < |format| ==> '!' <= format[i] <= '~' }

  lemma FormatIsWord(format: string)
    requires IsFormat(format)
    ensures IsWord(format)
  {
  }

  lemma AudioFields(format: string)
    requires IsFormat(format)
    ensures Words(Audio(format)) == ["m=audio", "1", "RTP/AVP", format]
  {
    FormatIsWord(format);
    hide Words, Join, IsFormat;
    assert Audio(format) == "m=audio" + " " + "1" + " " + "RTP/AVP" + " " + format;
    WordsOfFour("m=audio", "1", "RTP/AVP", format);
  }

  lemma PortOne()
    ensures PyInt("1") == Some(1)
  {
    PortText(1);
    assert Dec(1) == "1";
  }

  lemma AudioIsUsable(format: string)
    requires IsFormat(format)
    ensures IsAudio(Audio(format)) && AudioPort(Audio(format)) == Ok(1)
  {
    hide Words, PyInt, IsFormat;
    assert Audio(format)[..8] == "m=audio ";
    AudioFields(format);
    PortOne();
  }

  lemma Connections()
    ensures IsConnection(ROUTED) && ROUTED[9..] == "1.1.1.1"
    ensures IsConnection(HELD) && HELD[9..] == "0.0.0.0"
    ensures IsConnection(HELD6) && HELD6[9..] == "::"
  {
    assert ROUTED[..9] == "c=IN IP4 " && HELD[..9] == "c=IN IP4 " && HELD6[..9] == "c=IN IP6 ";
  }

  lemma OtherLine(line: string)
    requires line != "" && line[0] != 'c' && line[0] != 'm'
    ensures !IsConnection(line) && !IsAudio(line)
  {
  }

  lemma AudioLineSize(format: string, port: nat)
    requires IsFormat(format) && 1 <= port <= 65535
    ensures |Words(Audio(format))| == 4
    ensures |AudioLine(Words(Audio(format)), port)| == 17 + |Dec(port)| + |format| && |Dec(port)| <= 5
  {
    AudioFields(format);
    hide Words;
    DecAtMostFive(port);
    hide Dec;
    JoinOfFour("m=audio", Dec(port), "RTP/AVP", format);
    assert Words(Audio(format))[1 := Dec(port)] == ["m=audio", Dec(port), "RTP/AVP", format];
  }

  lemma DecAtMostFive(port: nat)
    requires port <= 65535
    ensures |Dec(port)| <= 5
  {
    assert PowTen(5) == 10 * (10 * (10 * (10 * (10 * PowTen(0)))));
    DecLength(port, 5);
  }

  // --- Bodies of four lines ---

  predicate Plain(line: string) { forall i :: 0 <= i < |line| ==> line[i] >= ' ' }

  // Four plain lines with an audio line at 2 and connection lines around it.
  ghost predicate FourLines(lines: seq<string>, format: string) {
    && |lines| == 4 && lines[0] == "v=0" && IsFormat(format) && lines[2] == Audio(format)
    && IsConnection(lines[1]) && !IsAudio(lines[3])
    && forall i :: 0 <= i < 4 ==> Plain(lines[i])
  }

  lemma HeldBodyIs(held: string, format: string)
    requires held in {HELD, HELD6} && IsFormat(format)
    ensures FourLines(HeldBody(held, format), format)
  {
    hide IsConnection, IsAudio, HasPrefix;
    Connections();
    ConnectionIsNotAudio(ROUTED);
    PlainTexts(format);
    hide Plain;
  }

  lemma PlainTexts(format: string)
    requires IsFormat(format)
    ensures Plain("v=0") && Plain(Audio(format)) && Plain(ROUTED) && Plain(HELD) && Plain(HELD6)
  {
  }

  lemma PlainLine(line: string)
    requires Plain(line)
    ensures NoCrlf(line) && '\0' !in line
  {
  }

  lemma FourLinesApart(lines: seq<string>, format: string)
    requires FourLines(lines, format)
    ensures SplitLines(JoinLines(lines)) == lines
    ensures '\0' !in JoinLines(lines)
  {
    hide IsConnection, IsAudio, SplitLines, Plain, NoCrlf;
    forall i | 0 <= i < 4 ensures NoCrlf(lines[i]) && '\0' !in lines[i] { PlainLine(lines[i]); }
    SplitOfJoinLines(lines);
    if '\0' in JoinLines(lines) { JoinLinesChars(lines); }
  }

  lemma FourLinesSize(lines: seq<string>)
    requires |lines| == 4
    ensures |JoinLines(lines)| == |lines[0]| + |lines[1]| + |lines[2]| + |lines[3]| + 6
  {
    var r := lines[1..][1..];
    assert r[1..] == [lines[3]];
    assert JoinLines(r[1..]) == lines[3];
    assert JoinLines(r) == lines[2] + CRLF + lines[3];
    assert JoinLines(lines[1..]) == lines[1] + CRLF + JoinLines(r);
    assert JoinLines(lines) == lines[0] + CRLF + JoinLines(lines[1..]);
  }

  lemma StartsWell(lines: seq<string>)
    requires |lines| > 1 && lines[0] == "v=0"
    ensures HasPrefix(JoinLines(lines), "v=0\r\n")
  {
    var s := JoinLines(lines);
    assert s == lines[0] + CRLF + JoinLines(lines[1..]);
    hide Join;
    assert s[..5] == "v=0\r\n";
  }

  // Read when exactly one of lines 1 and 3 is a routable connection.
  lemma FourLinesRead(lines: seq<string>, format: string, c: nat, ip: Resolver)
    requires FourLines(lines, format) && |JoinLines(lines)| <= MAX_SDP && (c == 1 || c == 3)
    requires Routable(lines, c, ip) && !Routable(lines, 4 - c, ip)
    ensures ParseSdp(JoinLines(lines), ip).Ok?
  {
    hide IsConnection, IsAudio, AudioPort, Scan, SplitLines, JoinLines, Plain, Routable, HasPrefix, Audio, IsFormat;
    AudioIsUsable(format);
    FourLinesApart(lines, format);
    FourLinesSize(lines);
    StartsWell(lines);
    FourLinesScanned(lines, format, c, ip);
    hide FourLines;
    assert Admissible(JoinLines(lines));
  }

  lemma FourLinesScanned(lines: seq<string>, format: string, c: nat, ip: Resolver)
    requires FourLines(lines, format) && (c == 1 || c == 3)
    requires Routable(lines, c, ip) && !Routable(lines, 4 - c, ip)
    requires IsAudio(Audio(format)) && AudioPort(Audio(format)).Ok?
    ensures Scan(lines, 4, ip).Ok?
    ensures Scan(lines, 4, ip).value.connection.Some? && Scan(lines, 4, ip).value.media.Some?
  {
    hide IsConnection, IsAudio, AudioPort, Scan, Plain, Audio, AddressOf;
    OtherLine(lines[0]);
    ConnectionIsNotAudio(Audio(format));
    ConnectionIsNotAudio(lines[1]);
    assert forall k :: 0 <= k < 4 && Routable(lines, k, ip) ==> k == c;
    assert forall k :: 0 <= k < 4 && IsAudio(lines[k]) ==> k == 2;
    ScanAccepts(lines, 4, Some(c), Some(2), ip);
  }

  // The rewriting of such a body.
  lemma FourLinesRewritten(lines: seq<string>, format: string, advertised: string, port: int, ip: Resolver)
    requires FourLines(lines, format) && ip(advertised).Some? && 1 <= port <= 65535
    ensures var a := ip(advertised).value;
      && |Words(Audio(format))| == 4
      && RewriteSdp(JoinLines(lines), advertised, port, ip)
         == Ok(JoinLines(lines[1 := ConnectionLine(a)][2 := AudioLine(Words(Audio(format)), port)]))
      && |RewriteSdp(JoinLines(lines), advertised, port, ip).value|
         == 35 + |a.text| + |Dec(port)| + |format| + |lines[3]| && |Dec(port)| <= 5
    ensures ConnectionAt(JoinLines(lines)) == 1
  {
    FourLinesApart(lines, format);
    AudioLineSize(format, port);
    AudioIsUsable(format);
    var a := ip(advertised).value;
    FourLinesFirsts(lines, format);
    assert |ConnectionLine(a)| == 9 + |a.text|;
    hide IsConnection, IsAudio, AudioLine, ConnectionLine, Words, Plain, SplitLines, JoinLines, Audio, Dec;
    FourLinesSize(lines[1 := ConnectionLine(a)][2 := AudioLine(Words(Audio(format)), port)]);
  }

  lemma FourLinesFirsts(lines: seq<string>, format: string)
    requires FourLines(lines, format)
    ensures FirstConnection(lines) == 1 && FirstAudio(lines) == 2
  {
    AudioIsUsable(format);
    OtherLine("v=0");
    hide IsConnection, IsAudio, Plain, Audio;
    ConnectionIsNotAudio(lines[1]);
    var c, m := FirstConnection(lines), FirstAudio(lines);
    assert IsConnection(lines[1]) && IsAudio(lines[2]);
  }

  // The program reads this body, rewrites it, and can no longer read the result.
  lemma HeldBodyLost(advertised: string, port: int, ip: Resolver)
    requires ip("0.0.0.0").None? && ip("1.1.1.1").Some?
    requires CanonicalAt(ip, advertised) && ip(advertised).Some? && |ip(advertised).value.text| <= 1000
    requires 1 <= port <= 65535
    ensures var sdp := JoinLines(HeldBody(HELD, "0"));
      && ParseSdp(sdp, ip).Ok? && RewriteSdp(sdp, advertised, port, ip).Ok?
      && ParseSdp(RewriteSdp(sdp, advertised, port, ip).value, ip).Err?
  {
    var lines := HeldBody(HELD, "0");
    HeldBodyIs(HELD, "0");
    Connections();
    FourLinesSize(lines);
    assert Routable(lines, 3, ip) && !Routable(lines, 1, ip);
    assert |JoinLines(lines)| <= MAX_SDP && |lines[3]| == 16;
    HeldLost(lines, "0", advertised, port, ip);
  }

  lemma HeldLost(lines: seq<string>, format: string, advertised: string, port: int, ip: Resolver)
    requires FourLines(lines, format) && |JoinLines(lines)| <= MAX_SDP && |lines[3]| == 16 && |format| == 1
    requires Routable(lines, 3, ip) && !Routable(lines, 1, ip)
    requires CanonicalAt(ip, advertised) && ip(advertised).Some? && |ip(advertised).value.text| <= 1000
    requires 1 <= port <= 65535
    ensures var sdp := JoinLines(lines);
      && ParseSdp(sdp, ip).Ok? && RewriteSdp(sdp, advertised, port, ip).Ok?
      && ParseSdp(RewriteSdp(sdp, advertised, port, ip).value, ip).Err?
  {
    FourLinesApart(lines, format);
    FourLinesRead(lines, format, 3, ip);
    FourLinesRewritten(lines, format, advertised, port, ip);
    hide FourLines, Routable, ParseSdp, RewriteSdp, JoinLines, CanonicalAt;
    RewriteThenParse(JoinLines(lines), advertised, port, ip);
  }
}
