// Where a header is added: before the first text that looks like Content-Length,
// wherever in the message that is. This says exactly when that is harmless.
module HeaderMarks {
  import opened HeaderLaws
  import opened Headers
  import opened Text

  // --- A checkable condition that makes every addition land well ---

  predicate Clean(s: string) { Find(Lower(s), CONTENT_LENGTH, 0).None? }

  // The text may only start the line, as it does in a Content-Length header.
  predicate CleanLine(line: string) { Find(Lower(line), CONTENT_LENGTH, 1).None? }

  predicate IsContentLength(line: string) { OccursAt(Lower(line), CONTENT_LENGTH, 0) }

  predicate NamedByAny(line: string, names: seq<string>) {
    exists i :: 0 <= i < |names| && Named(line, names[i])
  }

  // A Content-Length header that none of `names` takes away, with clean lines
  // before it: nothing after it is ever looked at.
  predicate Anchored(lines: seq<string>, names: seq<string>, k: nat) {
    && k < |lines| && IsContentLength(lines[k]) && !NamedByAny(lines[k], names)
    && forall i :: 0 <= i < k ==> CleanLine(lines[i])
  }

  // Clean text throughout, or up to a Content-Length header that stays.
  ghost predicate Steady(m: Message, names: seq<string>) {
    && Clean(m.start)
    && (((forall i :: 0 <= i < |m.lines| ==> CleanLine(m.lines[i])) && Clean(m.body))
        || exists k: nat :: Anchored(m.lines, names, k))
  }

  lemma LowerConcat(a: string, b: string)
    ensures Lower(a + b) == Lower(a) + Lower(b)
  {
  }

  // No text of the pattern's kind reaches across the end of a line.
  lemma NoMarkAcross(line: string, rest: string, i: nat)
    requires i < |line| + 2
    ensures OccursAt(Lower(line + "\r\n" + rest), CONTENT_LENGTH, i) ==> OccursAt(Lower(line), CONTENT_LENGTH, i)
  {
    var s := line + "\r\n" + rest;
    if i + 15 <= |line| {
      assert Lower(s)[i..i + 15] == Lower(line)[i..i + 15];
    } else if i + 15 <= |s| {
      var k := if i <= |line| then |line| else |line| + 1;
      assert Lower(s)[i..i + 15][k - i] == s[k];
      assert CONTENT_LENGTH[k - i] != s[k];
    }
  }

  lemma {:induction false} MarkInSection(lines: seq<string>, body: string)
    requires ((forall i :: 0 <= i < |lines| ==> CleanLine(lines[i])) && Clean(body)) || exists k: nat :: Anchored(lines, [], k)
    ensures var mark := Find(Lower(Section(lines, body)), CONTENT_LENGTH, 0);
      mark.None? || exists j :: 0 <= j < |lines| && |LinesText(lines[..j])| == mark.value
  {
    hide Find, Section, Lower;
    var s := Section(lines, body);
    if lines == [] {
      SectionEnd(body);
      assert s == "" + "\r\n" + body;
      assert Clean("") by { EmptyIsClean(); }
      MarkAfterLine("", body);
    } else if IsContentLength(lines[0]) {
      SectionStep(lines, body);
      MarkAtFront(lines[0], Section(lines[1..], body));
      assert |LinesText(lines[..0])| == 0;
    } else {
      SectionStep(lines, body);
      assert forall i :: 0 <= i < |lines[1..]| ==> lines[1..][i] == lines[i + 1];
      if k: nat :| Anchored(lines, [], k) { assert Anchored(lines[1..], [], k - 1); }
      MarkInSection(lines[1..], body);
      CleanLineIsClean(lines[0]);
      MarkAfterLine(lines[0], Section(lines[1..], body));
      var rest := Find(Lower(Section(lines[1..], body)), CONTENT_LENGTH, 0);
      if rest.Some? {
        var j :| 0 <= j < |lines[1..]| && |LinesText(lines[1..][..j])| == rest.value;
        assert lines[..j + 1] == [lines[0]] + lines[1..][..j];
        assert |LinesText(lines[..j + 1])| == |lines[0]| + 2 + rest.value;
      }
    }
  }

  lemma EmptyIsClean()
    ensures Clean("")
  {
  }

  lemma CleanLineIsClean(line: string)
    requires CleanLine(line) && !IsContentLength(line)
    ensures Clean(line)
  {
  }

  lemma MarkAtFront(line: string, rest: string)
    requires IsContentLength(line)
    ensures Find(Lower(line + "\r\n" + rest), CONTENT_LENGTH, 0) == Some(0)
  {
    LowerConcat(line, "\r\n" + rest);
    assert line + "\r\n" + rest == line + ("\r\n" + rest);
    assert Lower(line + "\r\n" + rest)[0..15] == Lower(line)[0..15];
  }

  lemma MarkAfterLine(line: string, rest: string)
    requires Clean(line)
    ensures Find(Lower(line + "\r\n" + rest), CONTENT_LENGTH, 0)
         == Shifted(Find(Lower(rest), CONTENT_LENGTH, 0), |line| + 2)
  {
    hide Find;
    LowerConcat(line + "\r\n", rest);
    forall i | 0 <= i < |line| + 2 ensures !OccursAt(Lower(line + "\r\n" + rest), CONTENT_LENGTH, i) {
      NoMarkAcross(line, rest, i);
    }
    FindShift(Lower(line + "\r\n"), Lower(rest), CONTENT_LENGTH);
  }

  lemma SteadyLands(m: Message, names: seq<string>)
    requires Steady(m, names)
    ensures MarkStartsLine(m)
  {
    hide Find, Section, Lower, LinesText;
    if k: nat :| Anchored(m.lines, names, k) { assert Anchored(m.lines, [], k); }
    MarkInSection(m.lines, m.body);
    MarkAfterLine(m.start, Section(m.lines, m.body));
    var mark := Find(Lower(Section(m.lines, m.body)), CONTENT_LENGTH, 0);
    if mark.Some? {
      var j :| 0 <= j < |m.lines| && |LinesText(m.lines[..j])| == mark.value;
      assert LineStart(m, j) == Mark(m).value;
    }
  }

  lemma SteadyAfterRemove(m: Message, name: string, names: seq<string>)
    requires Steady(m, names) && name in names
    ensures Steady(m.(lines := Without(m.lines, name)), names)
  {
    hide Clean, CleanLine, IsContentLength, Named, Without;
    if k: nat :| Anchored(m.lines, names, k) {
      var before, after := m.lines[..k], m.lines[k + 1..];
      var i :| 0 <= i < |names| && names[i] == name;
      assert m.lines == before + [m.lines[k]] + after;
      WithoutConcat(before + [m.lines[k]], after, name);
      WithoutConcat(before, [m.lines[k]], name);
      WithoutNone([m.lines[k]], name);
      WithoutLaws(before, name);
      var kept, rest := Without(before, name), Without(m.lines, name);
      forall i | 0 <= i < |kept| ensures CleanLine(rest[i]) {
        assert rest[i] == kept[i] && kept[i] in before;
      }
      assert Anchored(rest, names, |kept|);
    } else {
      WithoutLaws(m.lines, name);
      var rest := Without(m.lines, name);
      forall i | 0 <= i < |rest| ensures CleanLine(rest[i]) {
        assert rest[i] in m.lines;
      }
    }
  }

  lemma SteadyAfterInsert(m: Message, j: nat, line: string, names: seq<string>)
    requires Steady(m, names) && j <= |m.lines| && CleanLine(line)
    ensures Steady(m.(lines := Insert(m.lines, j, line)), names)
  {
    hide Clean, CleanLine, IsContentLength, NamedByAny;
    if k: nat :| Anchored(m.lines, names, k) {
      assert Anchored(Insert(m.lines, j, line), names, if j <= k then k + 1 else k);
    }
  }

  // --- Exactly when an addition is harmless ---

  ghost predicate LandsAsLine(m: Message, name: string, value: string) {
    exists j :: 0 <= j <= |m.lines|
      && Added(Wire(m), name, value) == Wire(m.(lines := Insert(m.lines, j, HeaderLine(name, value))))
  }

  // A safe header other than Content-Length joins the message as one more header
  // line if and only if the first text that looks like Content-Length starts a
  // header line, or there is none.
  lemma AddLandsIff(m: Message, name: string, value: string)
    requires WellFormed(m) && NameSafe(name) && TextSafe(value) && Lower(name) != "content-length"
    ensures LandsAsLine(m, name, value) <==> MarkStartsLine(m)
  {
    hide Find, Wire, HeaderLine, NameSafe, TextSafe, Insert;
    if MarkStartsLine(m) {
      AddEffect(m, name, value);
      assert PlaceOf(m) <= |m.lines|;
    } else if LandsAsLine(m, name, value) {
      var j :| 0 <= j <= |m.lines|
        && Added(Wire(m), name, value) == Wire(m.(lines := Insert(m.lines, j, HeaderLine(name, value))));
      NeverLands(m, name, value, j);
    }
  }

  lemma NeverLands(m: Message, name: string, value: string, j: nat)
    requires WellFormed(m) && NameSafe(name) && TextSafe(value) && Lower(name) != "content-length"
    requires !MarkStartsLine(m) && j <= |m.lines|
    ensures Added(Wire(m), name, value) != Wire(m.(lines := Insert(m.lines, j, HeaderLine(name, value))))
  {
    hide Find, Wire, HeaderLine, NameSafe, TextSafe, Insert, LineStart, LinesText, WellFormed, Lower;
    var line, t, p, q := HeaderLine(name, value), Wire(m), Mark(m).value, LineStart(m, j);
    InsertOnWire(m, j, line);
    LineStartsOnWire(m, j);
    MarkOnWire(m, p);
    assert q != p by {
      if j == |m.lines| { assert t[q] == '\r'; }
    }
    if p < q {
      InsertedBefore(t, p, q, name, value);
    } else {
      PastHeaders(m, j, p);
      LineStartsOnWire(m, |m.lines|);
      InsertedAfter(t, q, p, LineStart(m, |m.lines|), name, value);
    }
  }

  lemma MarkOnWire(m: Message, p: nat)
    requires Mark(m) == Some(p)
    ensures p + 15 <= |Wire(m)| && Lower(Wire(m)[p..p + 15]) == CONTENT_LENGTH
    ensures Wire(m)[p] == 'c' || Wire(m)[p] == 'C'
  {
    hide Wire, Find;
    var t := Wire(m);
    assert Lower(t)[p..p + 15] == CONTENT_LENGTH;
    assert Lower(t[p..p + 15]) == Lower(t)[p..p + 15];
    assert LowerChar(t[p]) == CONTENT_LENGTH[0];
  }

  // Every header line, and the blank line after them, starts just past a line end.
  lemma LineStartsOnWire(m: Message, j: nat)
    requires j <= |m.lines|
    ensures 2 <= LineStart(m, j) <= LineStart(m, |m.lines|) && LineStart(m, |m.lines|) + 2 <= |Wire(m)|
    ensures Wire(m)[LineStart(m, j) - 1] == '\n'
    ensures Wire(m)[LineStart(m, |m.lines|)] == '\r' && Wire(m)[LineStart(m, |m.lines|) + 1] == '\n'
  {
    hide LinesText;
    assert m.lines[..|m.lines|] == m.lines;
    SectionSplit(m.lines, m.body, j);
    SectionSplit(m.lines, m.body, |m.lines|);
    SectionEnd(m.body);
    LinesTextConcat(m.lines[..j], m.lines[j..]);
    assert m.lines[..j] + m.lines[j..] == m.lines;
    LinesTextEnd(m.lines[..j]);
    var before := m.start + "\r\n" + LinesText(m.lines[..j]);
    assert Wire(m)[..|before|] == before;
    assert before[|before| - 1] == '\n';
  }

  lemma {:induction false} LinesTextEnd(lines: seq<string>)
    ensures lines != [] ==> LinesText(lines) != "" && LinesText(lines)[|LinesText(lines)| - 1] == '\n'
  {
    if lines == [] {
    } else {
      LinesTextEnd(lines[1..]);
    }
  }

  // Within the header section a line feed ends the start line or a header line.
  lemma {:induction false} LineFeedEndsLine(lines: seq<string>, i: nat)
    requires forall k :: 0 <= k < |lines| ==> WellFormedLine(lines[k])
    requires i < |LinesText(lines)| && LinesText(lines)[i] == '\n'
    ensures exists k :: 0 < k <= |lines| && |LinesText(lines[..k])| == i + 1
  {
    var n := |lines[0]| + 2;
    assert lines[..1] == [lines[0]] && [lines[0]][1..] == [];
    assert |LinesText(lines[..1])| == n;
    if i >= n {
      LineFeedEndsLine(lines[1..], i - n);
      var k :| 0 < k <= |lines[1..]| && |LinesText(lines[1..][..k])| == i - n + 1;
      assert lines[..k + 1] == [lines[0]] + lines[1..][..k];
      assert |LinesText(lines[..k + 1])| == i + 1;
    } else {
      assert i == n - 1 by {
        assert WellFormedLine(lines[0]);
        if i < |lines[0]| { assert LinesText(lines)[i] == lines[0][i]; }
      }
    }
  }

  lemma LineFeedOnWire(m: Message, p: nat)
    requires WellFormed(m) && |m.start| + 2 < p <= LineStart(m, |m.lines|)
    requires p <= |Wire(m)| && Wire(m)[p - 1] == '\n'
    ensures exists k :: 0 < k <= |m.lines| && LineStart(m, k) == p
  {
    assert m.lines[..|m.lines|] == m.lines;
    var i := p - 1 - |m.start| - 2;
    assert LinesText(m.lines)[i] == '\n';
    LineFeedEndsLine(m.lines, i);
    var k :| 0 < k <= |m.lines| && |LinesText(m.lines[..k])| == i + 1;
    assert LineStart(m, k) == p;
  }

  // A mark after a line end that starts no header line lies past the blank line.
  lemma PastHeaders(m: Message, j: nat, p: nat)
    requires WellFormed(m) && j <= |m.lines| && Mark(m) == Some(p) && !MarkStartsLine(m)
    requires LineStart(m, j) < p
    ensures Wire(m)[p - 1] == '\n' ==> LineStart(m, |m.lines|) + 2 <= p
  {
    hide Find, LinesText;
    MarkOnWire(m, p);
    LineStartsOnWire(m, |m.lines|);
    if Wire(m)[p - 1] == '\n' && p <= LineStart(m, |m.lines|) {
      LineFeedOnWire(m, p);
    }
  }

  // Inserting at p and at a line end q beyond it gives different texts.
  lemma InsertedBefore(t: string, p: nat, q: nat, name: string, value: string)
    requires p < q <= |t| && t[q - 1] == '\n'
    requires p + 15 <= |t| && Lower(t[p..p + 15]) == CONTENT_LENGTH
    requires NameSafe(name) && Lower(name) != "content-length"
    ensures var line := HeaderLine(name, value);
      t[..p] + line + "\r\n" + t[p..] != t[..q] + line + "\r\n" + t[q..]
  {
    hide Lower;
    var u := HeaderLine(name, value) + "\r\n";
    var a, b := t[..p] + u + t[p..], t[..q] + u + t[q..];
    NoLineFeedInMark(t[p..p + 15]);
    forall i | p <= i < p + 15 ensures t[i] != '\n' {
      assert t[i] == t[p..p + 15][i - p];
    }
    assert q - p >= 15;
    if a == b {
      forall i | 0 <= i < 15 && i < |u| ensures u[i] == t[p + i] {
        assert a[p + i] == u[i] && b[p + i] == t[p + i];
      }
      NotContentLength(t[p..p + 15], name, u);
    }
    assert t[..p] + HeaderLine(name, value) + "\r\n" + t[p..] == a;
    assert t[..q] + HeaderLine(name, value) + "\r\n" + t[q..] == b;
  }

  lemma NoLineFeedInMark(s: string)
    requires |s| == 15 && Lower(s) == CONTENT_LENGTH
    ensures forall i :: 0 <= i < 15 ==> s[i] != '\n'
  {
    LowerAt(s);
    forall i | 0 <= i < 15 ensures s[i] != '\n' {
      assert LowerChar(s[i]) == CONTENT_LENGTH[i];
    }
  }

  lemma LowerAt(s: string)
    ensures forall i :: 0 <= i < |s| ==> Lower(s)[i] == LowerChar(s[i])
  {
  }

  // A text that reads as Content-Length begins no line of another safe name.
  lemma NotContentLength(s: string, name: string, u: string)
    requires |s| == 15 && Lower(s) == CONTENT_LENGTH && NameSafe(name) && Lower(name) != "content-length"
    requires |name| < |u| && u[..|name|] == name && u[|name|] == ':'
    ensures exists i :: 0 <= i < 15 && i < |u| && u[i] != s[i]
  {
    LowerAt(s);
    if |name| < 14 {
      assert LowerChar(s[|name|]) == CONTENT_LENGTH[|name|];
      assert u[|name|] != s[|name|];
    } else if |name| > 14 {
      assert LowerChar(s[14]) == CONTENT_LENGTH[14];
      assert IsToken(name[14]) && u[14] == u[..|name|][14];
      assert u[14] != s[14];
    } else {
      assert Lower(s[..14]) == Lower(s)[..14] == "content-length";
      DifferSomewhere(name, s[..14]);
      var i :| 0 <= i < 14 && name[i] != s[..14][i];
      assert u[..|name|][i] == name[i];
    }
  }

  lemma DifferSomewhere(a: string, b: string)
    requires |a| == |b| && Lower(a) != Lower(b)
    ensures exists i :: 0 <= i < |a| && a[i] != b[i]
  {
    assert a != b;
  }

  // Two commuting texts: the first repeats with the length of the second, so it
  // has no blank line when the second is a single line.
  lemma {:induction false} NoBlankLineWithin(x: string, u: string, e: nat)
    requires x + u == u + x && e < |x|
    requires u != "" && u[0] != '\r' && forall i :: 0 <= i < |u| - 1 ==> u[i] != '\n'
    ensures !(x[e] == '\r' && (e == 0 || x[e - 1] == '\n'))
    decreases e
  {
    Repeats(x, u, e);
    if e > 0 {
      Repeats(x, u, e - 1);
    }
    if e >= |u| {
      NoBlankLineWithin(x, u, e - |u|);
    }
  }

  lemma Repeats(x: string, u: string, i: nat)
    requires x + u == u + x && i < |x|
    ensures x[i] == if i < |u| then u[i] else x[i - |u|]
  {
    assert x[i] == (x + u)[i] == (u + x)[i];
  }

  lemma LineText(name: string, value: string)
    requires NameSafe(name) && TextSafe(value)
    ensures var u := HeaderLine(name, value) + "\r\n";
      && u[0] != '\r' && u[|u| - 1] == '\n' && forall i :: 0 <= i < |u| - 1 ==> u[i] != '\n'
  {
    HeaderLineShape(name, value);
    var u := HeaderLine(name, value) + "\r\n";
    assert u[0] == HeaderLine(name, value)[0];
  }

  // Inserting at p past a blank line and at an earlier line end q gives different texts.
  lemma InsertedAfter(t: string, q: nat, p: nat, e: nat, name: string, value: string)
    requires q < p <= |t| && q <= e && 0 < q && t[q - 1] == '\n'
    requires e + 1 < |t| && t[e] == '\r' && t[e - 1] == '\n'
    requires t[p - 1] == '\n' ==> e + 2 <= p
    requires NameSafe(name) && TextSafe(value)
    ensures var line := HeaderLine(name, value);
      t[..p] + line + "\r\n" + t[p..] != t[..q] + line + "\r\n" + t[q..]
  {
    hide HeaderLine, NameSafe, TextSafe;
    var u := HeaderLine(name, value) + "\r\n";
    var x := t[q..p];
    LineText(name, value);
    var a, b := t[..p] + u + t[p..], t[..q] + u + t[q..];
    if a == b {
      assert a[q..p + |u|] == x + u && b[q..p + |u|] == u + x;
      assert (u + x)[|u| + |x| - 1] == t[p - 1] && (x + u)[|u| + |x| - 1] == '\n';
      assert x[e - q] == t[e] && (e > q ==> x[e - q - 1] == t[e - 1]);
      NoBlankLineWithin(x, u, e - q);
    }
    assert t[..p] + HeaderLine(name, value) + "\r\n" + t[p..] == a;
    assert t[..q] + HeaderLine(name, value) + "\r\n" + t[q..] == b;
  }

  lemma SectionAround(before: seq<string>, lines: seq<string>, after: seq<string>, body: string)
    ensures Section(before + lines + after, body) == LinesText(before) + LinesText(lines) + Section(after, body)
  {
    hide LinesText;
    LinesTextConcat(before + lines, after);
    LinesTextConcat(before, lines);
  }

  lemma AddedAtMark(t: string, front: string, back: string, name: string, value: string)
    requires NameSafe(name) && TextSafe(value)
    requires t == front + back && Find(Lower(t), CONTENT_LENGTH, 0) == Some(|front|)
    ensures Added(t, name, value) == front + HeaderLine(name, value) + "\r\n" + back
  {
    hide Find, NameSafe, TextSafe, HeaderLine, Lower;
    assert t[..|front|] == front && t[|front|..] == back;
  }

  lemma TwoLinesText(first: string, second: string)
    ensures LinesText([first]) == first + "\r\n"
    ensures LinesText([first, second]) == first + "\r\n" + (second + "\r\n")
  {
    assert [first, second][1..] == [second] && [first][1..] == [] && [second][1..] == [];
  }

  // When the mark lies inside a header line, as in X-Content-Length, the addition
  // cuts that line in two and hangs the new header on its front half.
  lemma MarkInsideLineSplitsIt(m: Message, k: nat, d: nat, name: string, value: string)
    requires NameSafe(name) && TextSafe(value)
    requires k < |m.lines| && d <= |m.lines[k]| && Mark(m) == Some(LineStart(m, k) + d)
    ensures Added(Wire(m), name, value)
         == Wire(m.(lines := m.lines[..k] + [m.lines[k][..d] + HeaderLine(name, value), m.lines[k][d..]] + m.lines[k + 1..]))
  {
    hide Find, NameSafe, TextSafe, HeaderLine, Lower, Section, LinesText, Added;
    var line := HeaderLine(name, value);
    var before, after := m.lines[..k], m.lines[k + 1..];
    var front, back := m.lines[k][..d], m.lines[k][d..];
    assert m.lines == before + [m.lines[k]] + after && front + back == m.lines[k];
    SectionAround(before, [m.lines[k]], after, m.body);
    SectionAround(before, [front + line, back], after, m.body);
    TwoLinesText(m.lines[k], "");
    TwoLinesText(front + line, back);
    var p := m.start + "\r\n" + LinesText(before) + front;
    var s := back + "\r\n" + Section(after, m.body);
    assert Wire(m) == p + s;
    AddedAtMark(Wire(m), p, s, name, value);
  }
}
