// What rewriting an SDP body does to the next reader of it.
module SdpLaws {
  import opened PythonInt
  import opened Sdp
  import opened Text

  // --- Lines split and joined ---

  lemma FindCrlfIs(s: string, from: nat, at: nat)
    requires from <= at <= |s|
    requires at < |s| ==> at + 1 < |s| && s[at] == '\r' && s[at + 1] == '\n'
    requires forall i :: from <= i < at && i + 1 < |s| ==> !(s[i] == '\r' && s[i + 1] == '\n')
    ensures FindCrlf(s, from) == at
  {
  }

  lemma FirstLineSplits(first: string, rest: string)
    requires NoCrlf(first)
    ensures SplitLines(first + CRLF + rest) == [first] + SplitLines(rest)
  {
    var s := first + CRLF + rest;
    FindCrlfIs(s, 0, |first|);
    assert s[..|first|] == first && s[|first| + 2..] == rest;
  }

  lemma {:induction false} SplitOfJoinLines(lines: seq<string>)
    requires lines != [] && forall i :: 0 <= i < |lines| ==> NoCrlf(lines[i])
    ensures SplitLines(JoinLines(lines)) == lines
  {
    if |lines| == 1 {
      FindCrlfIs(lines[0], 0, |lines[0]|);
    } else {
      hide SplitLines, FindCrlf, NoCrlf;
      FirstLineSplits(lines[0], JoinLines(lines[1..]));
      SplitOfJoinLines(lines[1..]);
    }
  }

  lemma {:induction false} JoinOfSplitLines(s: string)
    ensures JoinLines(SplitLines(s)) == s
    ensures forall i :: 0 <= i < |SplitLines(s)| ==> NoCrlf(SplitLines(s)[i])
    decreases |s|
  {
    var at := FindCrlf(s, 0);
    if at == |s| {
    } else {
      var rest := SplitLines(s[at + 2..]);
      JoinOfSplitLines(s[at + 2..]);
      assert ([s[..at]] + rest)[1..] == rest;
      assert s == s[..at] + CRLF + s[at + 2..];
    }
  }

  // --- Words split and joined ---

  predicate IsWord(w: string) {
    w != "" && forall i :: 0 <= i < |w| ==> !IsSpace(w[i])
  }

  lemma {:induction false} WordLengthIs(s: string, n: nat)
    requires n <= |s| && (forall i :: 0 <= i < n ==> !IsSpace(s[i])) && (n < |s| ==> IsSpace(s[n]))
    ensures WordLength(s) == n
  {
    if n == 0 {
    } else {
      WordLengthIs(s[1..], n - 1);
    }
  }

  lemma {:induction false} WordsOfJoin(words: seq<string>)
    requires forall i :: 0 <= i < |words| ==> IsWord(words[i])
    ensures Words(Join(words, " ")) == words
  {
    if words == [] {
    } else {
      var s, first, tail := Join(words, " "), words[0], words[1..];
      assert words == [first] + tail;
      if tail == [] {
        WordLengthIs(s, |s|);
        assert s[..|s|] == s && s[|s|..] == "";
      } else {
        var rest := Join(tail, " ");
        assert s == first + (" " + rest);
        WordLengthIs(s, |first|);
        assert s[..|first|] == first && s[|first|..] == " " + rest;
        assert (" " + rest)[1..] == rest;
        WordsOfJoin(tail);
      }
    }
  }

  lemma {:induction false} WordsAreWords(s: string)
    ensures forall i :: 0 <= i < |Words(s)| ==> IsWord(Words(s)[i])
    ensures forall i, k :: 0 <= i < |Words(s)| && 0 <= k < |Words(s)[i]| ==> Words(s)[i][k] in s
    decreases |s|
  {
    if s == "" {
    } else {
      if IsSpace(s[0]) {
        WordsAreWords(s[1..]);
      } else {
        var n := WordLength(s);
        WordsAreWords(s[n..]);
        forall i, k | 0 <= i < |Words(s)| && 0 <= k < |Words(s)[i]| ensures Words(s)[i][k] in s {
          if i > 0 { assert Words(s)[i] == Words(s[n..])[i - 1]; }
        }
      }
    }
  }

  lemma AudioLineFirstWord(line: string)
    requires IsAudio(line)
    ensures Words(line) != [] && Words(line)[0] == "m=audio"
  {
    assert line[..8] == "m=audio ";
    assert forall i :: 0 <= i < 8 ==> line[i] == "m=audio "[i];
    WordLengthIs(line, 7);
    assert line[..7] == "m=audio";
  }

  // --- What the reader accepts ---

  predicate Routable(lines: seq<string>, k: nat, ip: Resolver)
    requires k < |lines|
  {
    IsConnection(lines[k]) && AddressOf(lines[k], ip).Some?
  }

  // One routable connection line and one sound audio line, alone of their kinds
  // among the first n lines.
  ghost predicate OnlyConnection(lines: seq<string>, n: nat, c: Option<nat>, ip: Resolver)
    requires n <= |lines|
  {
    && (c.Some? ==> c.value < n && Routable(lines, c.value, ip))
    && forall k :: 0 <= k < n && Routable(lines, k, ip) ==> c == Some(k)
  }

  ghost predicate OnlyAudio(lines: seq<string>, n: nat, m: Option<nat>)
    requires n <= |lines|
  {
    && (m.Some? ==> m.value < n && IsAudio(lines[m.value]) && AudioPort(lines[m.value]).Ok?)
    && forall k :: 0 <= k < n && IsAudio(lines[k]) ==> m == Some(k)
  }

  function FoundAt(lines: seq<string>, c: Option<nat>, m: Option<nat>, ip: Resolver): Found
    requires c.Some? ==> c.value < |lines| && IsConnection(lines[c.value])
    requires m.Some? ==> m.value < |lines| && AudioPort(lines[m.value]).Ok?
  {
    Found(if c.Some? then AddressOf(lines[c.value], ip) else None,
          if m.Some? then Some((m.value, AudioPort(lines[m.value]).value)) else None)
  }

  lemma ConnectionIsNotAudio(line: string)
    ensures !(IsConnection(line) && IsAudio(line))
  {
    if IsConnection(line) { assert line[0] == 'c'; }
    if IsAudio(line) { assert line[0] == 'm'; }
  }

  // The scan succeeds exactly on such lines, and finds them.
  lemma {:induction false} ScanAccepts(lines: seq<string>, n: nat, c: Option<nat>, m: Option<nat>, ip: Resolver)
    requires n <= |lines| && OnlyConnection(lines, n, c, ip) && OnlyAudio(lines, n, m)
    ensures Scan(lines, n, ip) == Ok(FoundAt(lines, c, m, ip))
  {
    hide IsConnection, IsAudio, AudioPort;
    if n == 0 {
    } else {
      var c', m' := if c == Some(n - 1) then None else c, if m == Some(n - 1) then None else m;
      ConnectionIsNotAudio(lines[n - 1]);
      assert !Routable(lines, n - 1, ip) || c == Some(n - 1);
      ScanAccepts(lines, n - 1, c', m', ip);
    }
  }

  lemma {:induction false} ScanFinds(lines: seq<string>, n: nat, ip: Resolver) returns (c: Option<nat>, m: Option<nat>)
    requires n <= |lines| && Scan(lines, n, ip).Ok?
    ensures OnlyConnection(lines, n, c, ip) && OnlyAudio(lines, n, m)
    ensures Scan(lines, n, ip) == Ok(FoundAt(lines, c, m, ip))
  {
    hide IsConnection, IsAudio, AudioPort;
    if n == 0 {
      c, m := None, None;
    } else {
      c, m := ScanFinds(lines, n - 1, ip);
      ConnectionIsNotAudio(lines[n - 1]);
      if Routable(lines, n - 1, ip) {
        c := Some(n - 1);
      } else if IsAudio(lines[n - 1]) {
        m := Some(n - 1);
      }
    }
  }

  // --- The rewritten lines ---

  lemma ConnectionLineShape(a: Address, ip: Resolver, advertised: string)
    requires CanonicalAt(ip, advertised) && ip(advertised) == Some(a)
    ensures IsConnection(ConnectionLine(a)) && AddressOf(ConnectionLine(a), ip) == Some(a)
    ensures NoCrlf(ConnectionLine(a)) && '\0' !in ConnectionLine(a)
  {
    var head := if a.v6 then "c=IN IP6 " else "c=IN IP4 ";
    assert ConnectionLine(a)[..9] == head && ConnectionLine(a)[9..] == a.text;
    forall i | 0 <= i < |ConnectionLine(a)| ensures ConnectionLine(a)[i] !in "\r\n\0" {
      assert ConnectionLine(a)[i] == if i < 9 then head[i] else a.text[i - 9];
    }
  }

  lemma {:induction false} JoinChars(words: seq<string>, c: char)
    requires c in Join(words, " ")
    ensures c == ' ' || exists i :: 0 <= i < |words| && c in words[i]
  {
    if |words| <= 1 {
    } else {
      if c !in words[0] && c != ' ' {
        assert c in Join(words[1..], " ");
        JoinChars(words[1..], c);
        var i :| 0 <= i < |words[1..]| && c in words[1..][i];
        assert c in words[i + 1];
      }
    }
  }

  lemma AudioLineShape(line: string, port: nat)
    requires IsAudio(line) && |Words(line)| >= 4 && 1 <= port <= 65535
    ensures var t := AudioLine(Words(line), port);
      && IsAudio(t) && AudioPort(t) == Ok(port) && Words(t) == Words(line)[1 := Dec(port)]
      && NoCrlf(t) && ('\0' in t ==> '\0' in line)
  {
    var fields := Words(line);
    var words, t := fields[1 := Dec(port)], AudioLine(fields, port);
    WordsAreWords(line);
    AudioLineFirstWord(line);
    DecIsWord(port);
    WordsOfJoin(words);
    PortText(port);
    assert t == words[0] + (" " + Join(words[1..], " "));
    assert t[..8] == "m=audio ";
    forall i | 0 <= i < |t| ensures t[i] == ' ' || !IsSpace(t[i]) {
      JoinChars(words, t[i]);
    }
    if '\0' in t {
      JoinChars(words, '\0');
      var i :| 0 <= i < |words| && '\0' in words[i];
      var k :| 0 <= k < |words[i]| && words[i][k] == '\0';
      DecShape(port);
      assert i != 1;
      assert words[i] == fields[i];
      assert fields[i][k] in line;
    }
  }

  lemma DecIsWord(n: nat)
    ensures IsWord(Dec(n))
  {
    DecShape(n);
  }

  lemma PortText(port: nat)
    requires port <= 65535
    ensures PyInt(Dec(port)) == Some(port)
  {
    assert PowTen(5) == 10 * (10 * (10 * (10 * (10 * PowTen(0)))));
    DecLength(port, 5);
    var i: int := port;
    PyIntOfIntText(i);
  }

  // --- The rewritten body ---

  function ConnectionAt(sdp: string): nat { FirstConnection(SplitLines(sdp)) }

  function AudioAt(sdp: string): nat { FirstAudio(SplitLines(sdp)) }

  // Exactly the first connection line and the first audio line are replaced.
  lemma RewriteEffect(sdp: string, advertised: string, port: int, ip: Resolver)
    requires CanonicalAt(ip, advertised) && RewriteSdp(sdp, advertised, port, ip).Ok?
    ensures var lines, c, m := SplitLines(sdp), ConnectionAt(sdp), AudioAt(sdp);
      && c < |lines| && m < |lines| && c != m && |Words(lines[m])| >= 4 && 1 <= port <= 65535
      && ip(advertised).Some?
      && SplitLines(RewriteSdp(sdp, advertised, port, ip).value)
         == lines[c := ConnectionLine(ip(advertised).value)][m := AudioLine(Words(lines[m]), port)]
  {
    hide ConnectionLine, AudioLine, IsConnection, IsAudio, Words, Dec;
    var lines, c, m := SplitLines(sdp), ConnectionAt(sdp), AudioAt(sdp);
    var a := ip(advertised).value;
    ConnectionIsNotAudio(lines[c]);
    JoinOfSplitLines(sdp);
    ConnectionLineShape(a, ip, advertised);
    AudioLineShape(lines[m], port);
    var rewritten := lines[c := ConnectionLine(a)][m := AudioLine(Words(lines[m]), port)];
    SplitOfJoinLines(rewritten);
  }

  // Those two lines in full: the address under its own family, and the words of the
  // audio line with the second replaced by the port, single blanks between them.
  lemma RewriteExact(sdp: string, advertised: string, port: int, ip: Resolver)
    requires CanonicalAt(ip, advertised) && RewriteSdp(sdp, advertised, port, ip).Ok?
    ensures var before, after := SplitLines(sdp), SplitLines(RewriteSdp(sdp, advertised, port, ip).value);
      var c, m := ConnectionAt(sdp), AudioAt(sdp);
      && |after| == |before| && c < |before| && m < |before| && c != m && ip(advertised).Some? && 1 <= port <= 65535
      && (forall i :: 0 <= i < |before| && i != c && i != m ==> after[i] == before[i])
      && after[c] == (if ip(advertised).value.v6 then "c=IN IP6 " else "c=IN IP4 ") + ip(advertised).value.text
      && |Words(before[m])| >= 4 && Words(after[m]) == Words(before[m])[1 := Dec(port)]
      && after[m] == Join(Words(after[m]), " ")
  {
    hide IsConnection, IsAudio, Words, Dec, SplitLines, JoinLines, ConnectionLine, AudioLine, RewriteSdp;
    RewriteEffect(sdp, advertised, port, ip);
    var lines, c, m, a := SplitLines(sdp), ConnectionAt(sdp), AudioAt(sdp), ip(advertised).value;
    AudioLineShape(lines[m], port);
    LineTexts(a, Words(lines[m]), port);
  }

  lemma LineTexts(a: Address, fields: seq<string>, port: nat)
    requires |fields| >= 4
    ensures ConnectionLine(a) == (if a.v6 then "c=IN IP6 " else "c=IN IP4 ") + a.text
    ensures AudioLine(fields, port) == Join(fields[1 := Dec(port)], " ")
  {
  }

  lemma FirstsAfterRewrite(lines: seq<string>, c: nat, m: nat, connection: string, audio: string)
    requires c < |lines| && m < |lines| && c == FirstConnection(lines) && m == FirstAudio(lines)
    requires IsConnection(connection) && IsAudio(audio)
    ensures var r := lines[c := connection][m := audio];
      c != m && FirstConnection(r) == c && FirstAudio(r) == m
  {
    hide IsConnection, IsAudio;
    ConnectionIsNotAudio(lines[c]);
    ConnectionIsNotAudio(connection);
    ConnectionIsNotAudio(audio);
    var r := lines[c := connection][m := audio];
    var c', m' := FirstConnection(r), FirstAudio(r);
    assert IsConnection(r[c]) && IsAudio(r[m]);
  }

  // A second rewrite fully overrides the first.
  lemma RewriteOverrides(sdp: string, first: string, port1: int, second: string, port2: int, ip: Resolver)
    requires CanonicalAt(ip, first)
    requires RewriteSdp(sdp, first, port1, ip).Ok? && RewriteSdp(sdp, second, port2, ip).Ok?
    ensures RewriteSdp(RewriteSdp(sdp, first, port1, ip).value, second, port2, ip)
      == RewriteSdp(sdp, second, port2, ip)
  {
    hide ConnectionLine, IsConnection, IsAudio, Words, Dec, SplitLines, JoinLines;
    var lines, c, m := SplitLines(sdp), ConnectionAt(sdp), AudioAt(sdp);
    RewriteEffect(sdp, first, port1, ip);
    var a, fields := ip(first).value, Words(lines[m]);
    ConnectionLineShape(a, ip, first);
    AudioLineShape(lines[m], port1);
    FirstsAfterRewrite(lines, c, m, ConnectionLine(a), AudioLine(fields, port1));
    var once := lines[c := ConnectionLine(a)][m := AudioLine(fields, port1)];
    assert Words(once[m]) == fields[1 := Dec(port1)];
    assert fields[1 := Dec(port1)][1 := Dec(port2)] == fields[1 := Dec(port2)];
    var b := ip(second).value;
    assert once[c := ConnectionLine(b)][m := AudioLine(fields, port2)]
      == lines[c := ConnectionLine(b)][m := AudioLine(fields, port2)];
  }

  // --- Reading what was rewritten ---

  lemma FirstLineOfAdmissible(sdp: string)
    requires Admissible(sdp)
    ensures |SplitLines(sdp)| >= 2 && SplitLines(sdp)[0] == "v=0"
  {
    assert sdp[..5] == "v=0\r\n";
    assert sdp[0] == 'v' && sdp[1] == '=' && sdp[2] == '0' && sdp[3] == '\r' && sdp[4] == '\n';
    FindCrlfIs(sdp, 0, 3);
    assert sdp[..3] == "v=0";
  }

  lemma {:induction false} JoinLinesChars(lines: seq<string>)
    requires '\0' in JoinLines(lines)
    ensures exists i :: 0 <= i < |lines| && '\0' in lines[i]
  {
    if |lines| > 1 && '\0' !in lines[0] {
      assert '\0' in JoinLines(lines[1..]);
      JoinLinesChars(lines[1..]);
      var i :| 0 <= i < |lines[1..]| && '\0' in lines[1..][i];
      assert '\0' in lines[i + 1];
    }
  }

  lemma {:induction false} LineChars(lines: seq<string>, i: nat)
    requires i < |lines| && '\0' in lines[i]
    ensures '\0' in JoinLines(lines)
  {
    if |lines| <= 1 {
    } else {
      assert JoinLines(lines) == lines[0] + CRLF + JoinLines(lines[1..]);
      if i > 0 { LineChars(lines[1..], i - 1); }
    }
  }

  lemma RewriteAdmissible(sdp: string, advertised: string, port: int, ip: Resolver)
    requires CanonicalAt(ip, advertised) && Admissible(sdp) && RewriteSdp(sdp, advertised, port, ip).Ok?
    requires |RewriteSdp(sdp, advertised, port, ip).value| <= MAX_SDP
    ensures Admissible(RewriteSdp(sdp, advertised, port, ip).value)
  {
    hide SplitLines, RewriteSdp, RewriteLines, ConnectionLine, AudioLine, Words;
    var lines, c, m, t := SplitLines(sdp), ConnectionAt(sdp), AudioAt(sdp), RewriteSdp(sdp, advertised, port, ip).value;
    RewriteEffect(sdp, advertised, port, ip);
    FirstLineOfAdmissible(sdp);
    JoinOfSplitLines(sdp);
    JoinOfSplitLines(t);
    ConnectionLineShape(ip(advertised).value, ip, advertised);
    AudioLineShape(lines[m], port);
    var r := SplitLines(t);
    assert r[0] == "v=0" && t == r[0] + CRLF + JoinLines(r[1..]);
    assert t[..5] == "v=0\r\n";
    if '\0' in t {
      JoinLinesChars(r);
      var i :| 0 <= i < |r| && '\0' in r[i];
      LineChars(lines, i);
    }
  }

  // If a body can be read, its rewriting (when it still fits) reads as exactly the
  // new address and port on the same audio line if and only if the first
  // connection line was the routable one; otherwise it cannot be read at all.
  lemma RewriteThenParse(sdp: string, advertised: string, port: int, ip: Resolver)
    requires CanonicalAt(ip, advertised) && ParseSdp(sdp, ip).Ok? && RewriteSdp(sdp, advertised, port, ip).Ok?
    requires |RewriteSdp(sdp, advertised, port, ip).value| <= MAX_SDP
    ensures ConnectionAt(sdp) < |SplitLines(sdp)|
    ensures var r := ParseSdp(RewriteSdp(sdp, advertised, port, ip).value, ip);
      if Routable(SplitLines(sdp), ConnectionAt(sdp), ip) then
        ip(advertised).Some?
        && r == Ok(Description(ip(advertised).value.text, port, ParseSdp(sdp, ip).value.mediaLine))
      else r.Err?
  {
    hide SplitLines, RewriteSdp, RewriteLines, ConnectionLine, AudioLine, Words, Scan, IsConnection, IsAudio, AudioPort, AddressOf;
    var lines, c, m, t := SplitLines(sdp), ConnectionAt(sdp), AudioAt(sdp), RewriteSdp(sdp, advertised, port, ip).value;
    RewriteEffect(sdp, advertised, port, ip);
    var a := ip(advertised).value;
    RewriteAdmissible(sdp, advertised, port, ip);
    ConnectionLineShape(a, ip, advertised);
    AudioLineShape(lines[m], port);
    var c0, m0 := ScanFinds(lines, |lines|, ip);
    assert m0 == Some(m);
    RewrittenScan(lines, c, m, ConnectionLine(a), AudioLine(Words(lines[m]), port), c0.value, ip);
  }

  lemma RewrittenScan(lines: seq<string>, c: nat, m: nat, connection: string, audio: string, c0: nat, ip: Resolver)
    requires c < |lines| && m < |lines| && c == FirstConnection(lines) && m == FirstAudio(lines)
    requires OnlyConnection(lines, |lines|, Some(c0), ip) && OnlyAudio(lines, |lines|, Some(m))
    requires IsConnection(connection) && AddressOf(connection, ip).Some? && IsAudio(audio) && AudioPort(audio).Ok?
    ensures var r := lines[c := connection][m := audio];
      if c == c0 then
        Scan(r, |r|, ip) == Ok(Found(AddressOf(connection, ip), Some((m, AudioPort(audio).value))))
      else Scan(r, |r|, ip).Err?
    ensures c == c0 <==> Routable(lines, c, ip)
  {
    hide IsConnection, IsAudio, AudioPort, AddressOf, Scan;
    var r := lines[c := connection][m := audio];
    ConnectionIsNotAudio(lines[c]);
    ConnectionIsNotAudio(lines[c0]);
    ConnectionIsNotAudio(lines[m]);
    ConnectionIsNotAudio(connection);
    ConnectionIsNotAudio(audio);
    assert Routable(lines, c, ip) ==> Some(c0) == Some(c);
    if c == c0 {
      forall k | 0 <= k < |r| && k != c && k != m
        ensures Routable(r, k, ip) == Routable(lines, k, ip) && IsAudio(r[k]) == IsAudio(lines[k])
      {
      }
      ScanAccepts(r, |r|, Some(c), Some(m), ip);
    } else {
      assert Routable(r, c, ip) && Routable(r, c0, ip);
      if Scan(r, |r|, ip).Ok? {
        var c1, m1 := ScanFinds(r, |r|, ip);
      }
    }
  }
}
