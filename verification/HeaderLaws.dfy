// What header rewriting does to a well-formed SIP message, seen as a start line,
// header lines and a body.
module HeaderLaws {
  import opened Headers
  import opened Text

  datatype Message = Message(start: string, lines: seq<string>, body: string)

  predicate NoBreak(s: string) {
    forall i :: 0 <= i < |s| ==> s[i] != '\r' && s[i] != '\n'
  }

  predicate WellFormedLine(line: string) { line != "" && NoBreak(line) }

  predicate WellFormed(m: Message) {
    NoBreak(m.start) && forall i :: 0 <= i < |m.lines| ==> WellFormedLine(m.lines[i])
  }

  function Section(lines: seq<string>, body: string): string { LinesText(lines) + ("\r\n" + body) }

  function Wire(m: Message): string { m.start + "\r\n" + Section(m.lines, m.body) }

  // --- One line at a time ---

  lemma LineFirst(line: string, rest: string)
    requires NoBreak(line)
    ensures LineLength(line + "\r\n" + rest) == |line| + 2
    ensures (line + "\r\n" + rest)[..|line| + 2] == line + "\r\n"
    ensures (line + "\r\n" + rest)[|line| + 2..] == rest
  {
    FindCharIs(line + "\r\n" + rest, '\n', 0, |line| + 1);
  }

  // A header line of this name, in any case of letters.
  predicate Named(line: string, name: string) {
    |name| < |line| && Lower(line[..|name|]) == Lower(name) && line[|name|] == ':'
  }

  function Without(lines: seq<string>, name: string): seq<string> {
    if lines == [] then []
    else (if Named(lines[0], name) then [] else [lines[0]]) + Without(lines[1..], name)
  }

  function NotDropped(lines: seq<string>, drops: seq<string>): seq<string> {
    if lines == [] then []
    else (if Dropped(lines[0], drops) then [] else [lines[0]]) + NotDropped(lines[1..], drops)
  }

  lemma BeginsIsNamed(line: string, rest: string, name: string)
    requires WellFormedLine(line) && NoBreak(name)
    ensures BeginsWithHeader(line + "\r\n" + rest, name) <==> Named(line, name)
  {
    var t := line + "\r\n" + rest;
    if |name| < |line| {
      assert t[..|name|] == line[..|name|];
    } else if |line| < |name| <= |t| {
      LineEndDiffers(t, name, |line|);
    }
  }

  lemma LineEndDiffers(t: string, name: string, k: nat)
    requires k < |name| <= |t| && t[k] == '\r' && NoBreak(name)
    ensures Lower(t[..|name|]) != Lower(name)
  {
    assert Lower(t[..|name|])[k] == '\r';
    assert Lower(name)[k] != '\r';
  }

  lemma {:induction false} ColonWithin(line: string, rest: string)
    requires NoBreak(line)
    ensures ColonOf(line + "\r\n" + rest) == ColonOf(line)
  {
    var t := line + "\r\n" + rest;
    if line != "" {
      ColonWithin(line[1..], rest);
      assert t[1..] == line[1..] + "\r\n" + rest;
    } else {
      assert t[0] == '\r';
    }
  }

  lemma DroppedIs(line: string, rest: string, drops: seq<string>)
    requires NoBreak(line)
    ensures Dropped(line + "\r\n" + rest, drops) <==> Dropped(line, drops)
  {
    ColonWithin(line, rest);
    var colon := ColonOf(line);
    if colon.Some? {
      assert (line + "\r\n" + rest)[..colon.value] == line[..colon.value];
    }
  }

  lemma SectionStep(lines: seq<string>, body: string)
    requires lines != []
    ensures Section(lines, body) == lines[0] + "\r\n" + Section(lines[1..], body)
  {
  }

  lemma SectionEnd(body: string)
    ensures Section([], body) == "\r\n" + body
  {
  }

  // The wire text of a well-formed message determines it.
  lemma WireInjective(m: Message, n: Message)
    requires WellFormed(m) && WellFormed(n) && Wire(m) == Wire(n)
    ensures m == n
  {
    hide Section, LineLength;
    LineFirst(m.start, Section(m.lines, m.body));
    LineFirst(n.start, Section(n.lines, n.body));
    assert m.start + "\r\n" == n.start + "\r\n";
    assert m.start == (m.start + "\r\n")[..|m.start|] == n.start;
    SectionInjective(m.lines, m.body, n.lines, n.body);
  }

  lemma {:induction false} SectionInjective(a: seq<string>, x: string, b: seq<string>, y: string)
    requires forall i :: 0 <= i < |a| ==> WellFormedLine(a[i])
    requires forall i :: 0 <= i < |b| ==> WellFormedLine(b[i])
    requires Section(a, x) == Section(b, y)
    ensures a == b && x == y
    decreases a
  {
    hide LineLength, Section;
    if a != [] && b != [] {
      SectionStep(a, x);
      SectionStep(b, y);
      LineFirst(a[0], Section(a[1..], x));
      LineFirst(b[0], Section(b[1..], y));
      assert a[0] + "\r\n" == b[0] + "\r\n";
      assert a[0] == (a[0] + "\r\n")[..|a[0]|] == b[0];
      SectionInjective(a[1..], x, b[1..], y);
      assert a == [a[0]] + a[1..] && b == [b[0]] + b[1..];
    } else {
      SectionStart(a, x);
      SectionStart(b, y);
      SectionEnd(x);
      SectionEnd(y);
      assert x == ("\r\n" + x)[2..] && y == ("\r\n" + y)[2..];
    }
  }

  lemma SectionStart(lines: seq<string>, body: string)
    requires forall i :: 0 <= i < |lines| ==> WellFormedLine(lines[i])
    ensures Section(lines, body) != "" && (Section(lines, body)[0] == '\r' <==> lines == [])
  {
    if lines != [] {
      assert WellFormedLine(lines[0]);
      assert Section(lines, body)[0] == lines[0][0];
    }
  }

  // --- Removing ---

  lemma {:induction false} RemovedFromSection(lines: seq<string>, body: string, name: string)
    requires forall i :: 0 <= i < |lines| ==> WellFormedLine(lines[i])
    requires NoBreak(name)
    ensures RemovedFrom(Section(lines, body), name) == Section(Without(lines, name), body)
  {
    hide LineLength, BeginsWithHeader, Named;
    if lines == [] {
      SectionEnd(body);
    } else {
      var rest := Section(lines[1..], body);
      SectionStep(lines, body);
      LineFirst(lines[0], rest);
      BeginsIsNamed(lines[0], rest, name);
      RemovedFromSection(lines[1..], body, name);
      assert Section(lines, body)[0] == lines[0][0];
      if !Named(lines[0], name) {
        assert ([lines[0]] + Without(lines[1..], name))[1..] == Without(lines[1..], name);
        SectionStep(Without(lines, name), body);
      } else {
        assert [] + Without(lines[1..], name) == Without(lines[1..], name);
      }
    }
  }

  // Removing a header keeps the start line, the body and every other line in order.
  lemma RemoveEffect(m: Message, name: string)
    requires WellFormed(m) && NoBreak(name)
    ensures Removed(Wire(m), name) == Wire(m.(lines := Without(m.lines, name)))
  {
    hide LineLength, RemovedFrom, Section;
    LineFirst(m.start, Section(m.lines, m.body));
    RemovedFromSection(m.lines, m.body, name);
  }

  lemma {:induction false} WithoutLaws(lines: seq<string>, name: string)
    ensures forall l :: l in Without(lines, name) <==> l in lines && !Named(l, name)
    ensures |Without(lines, name)| <= |lines|
    ensures (forall l :: l in lines ==> !Named(l, name)) ==> Without(lines, name) == lines
  {
    hide Named;
    if lines == [] {
    } else {
      WithoutLaws(lines[1..], name);
      assert lines == [lines[0]] + lines[1..];
    }
  }

  lemma {:induction false} WithoutConcat(a: seq<string>, b: seq<string>, name: string)
    ensures Without(a + b, name) == Without(a, name) + Without(b, name)
  {
    hide Named;
    if a == [] {
      assert a + b == b;
    } else {
      WithoutConcat(a[1..], b, name);
      assert (a + b)[1..] == a[1..] + b && (a + b)[0] == a[0];
      var first := if Named(a[0], name) then [] else [a[0]];
      assert Without(a + b, name) == first + (Without(a[1..], name) + Without(b, name));
    }
  }

  // --- Batch ---

  lemma {:induction false} KeptSection(lines: seq<string>, body: string, drops: seq<string>)
    requires forall i :: 0 <= i < |lines| ==> WellFormedLine(lines[i])
    ensures Kept(Section(lines, body), drops) == LinesText(NotDropped(lines, drops))
    ensures Tail(Section(lines, body)) == "\r\n" + body
  {
    hide LineLength, Dropped;
    if lines == [] {
      SectionEnd(body);
    } else {
      var rest := Section(lines[1..], body);
      SectionStep(lines, body);
      LineFirst(lines[0], rest);
      DroppedIs(lines[0], rest, drops);
      KeptSection(lines[1..], body, drops);
      assert Section(lines, body)[0] == lines[0][0];
      if Dropped(lines[0], drops) {
        assert [] + NotDropped(lines[1..], drops) == NotDropped(lines[1..], drops);
      } else {
        assert ([lines[0]] + NotDropped(lines[1..], drops))[1..] == NotDropped(lines[1..], drops);
      }
    }
  }

  lemma {:induction false} LinesTextConcat(a: seq<string>, b: seq<string>)
    ensures LinesText(a + b) == LinesText(a) + LinesText(b)
  {
    if a == [] {
      assert a + b == b;
    } else {
      LinesTextConcat(a[1..], b);
      assert (a + b)[1..] == a[1..] + b;
    }
  }

  // One scan keeps the start line, the body and the lines not dropped in order,
  // then writes the sets, then the adds.
  lemma BatchEffect(m: Message, removes: string, sets: string, adds: string)
    requires WellFormed(m)
    ensures var setEntries := Entries(Split(sets, '|'));
      var drops := LowerAll(Entries(Split(removes, ','))) + PairNames(setEntries);
      BatchRewritten(Wire(m), removes, sets, adds)
      == Wire(m.(lines := NotDropped(m.lines, drops) + Pairs(setEntries) + Entries(Split(adds, '|'))))
  {
    hide LineLength, Kept, Tail, Entries, Split, LowerAll, PairNames, Pairs, NotDropped, LinesText;
    var setEntries := Entries(Split(sets, '|'));
    var drops := LowerAll(Entries(Split(removes, ','))) + PairNames(setEntries);
    var added := Entries(Split(adds, '|'));
    LineFirst(m.start, Section(m.lines, m.body));
    KeptSection(m.lines, m.body, drops);
    LinesTextConcat(NotDropped(m.lines, drops) + Pairs(setEntries), added);
    LinesTextConcat(NotDropped(m.lines, drops), Pairs(setEntries));
  }

  // --- Adding ---

  lemma FindIs(s: string, pattern: string, from: nat, at: nat)
    requires from <= at && OccursAt(s, pattern, at)
    requires forall i :: from <= i < at ==> !OccursAt(s, pattern, i)
    ensures Find(s, pattern, from) == Some(at)
  {
  }

  // No occurrence starts within the prefix: look in the rest.
  lemma FindShift(prefix: string, rest: string, pattern: string)
    requires forall i :: 0 <= i < |prefix| ==> !OccursAt(prefix + rest, pattern, i)
    ensures Find(prefix + rest, pattern, 0) == Shifted(Find(rest, pattern, 0), |prefix|)
  {
    hide Find;
    var s := prefix + rest;
    forall i | 0 <= i ensures OccursAt(rest, pattern, i) <==> OccursAt(s, pattern, |prefix| + i) {
      if i + |pattern| <= |rest| {
        assert s[|prefix| + i..|prefix| + i + |pattern|] == rest[i..i + |pattern|];
      }
    }
    var at := Find(rest, pattern, 0);
    if at.Some? {
      forall i | 0 <= i < |prefix| + at.value ensures !OccursAt(s, pattern, i) {
        if i >= |prefix| { assert !OccursAt(rest, pattern, i - |prefix|); }
      }
      FindIs(s, pattern, 0, |prefix| + at.value);
    } else {
      forall i | 0 <= i ensures !OccursAt(s, pattern, i) {
        if i >= |prefix| { assert !OccursAt(rest, pattern, i - |prefix|); }
      }
    }
  }

  lemma NotHere(s: string, i: nat, k: nat)
    requires k < 4 && i + k < |s| && s[i + k] != "\r\n\r\n"[k]
    ensures !OccursAt(s, "\r\n\r\n", i)
  {
    if i + 4 <= |s| { assert s[i..i + 4][k] == s[i + k]; }
  }

  // The blank line is the first place where two line ends meet.
  lemma {:induction false} BlankLineAt(first: string, lines: seq<string>, body: string)
    requires NoBreak(first) && forall i :: 0 <= i < |lines| ==> WellFormedLine(lines[i])
    ensures Find(first + "\r\n" + Section(lines, body), "\r\n\r\n", 0) == Some(|first| + |LinesText(lines)|)
    decreases lines
  {
    hide Find, Section;
    var s := first + "\r\n" + Section(lines, body);
    forall i | 0 <= i < |first| ensures !OccursAt(s, "\r\n\r\n", i) {
      assert s[i] == first[i];
    }
    if lines == [] {
      SectionEnd(body);
      assert s[|first|..|first| + 4] == "\r\n\r\n";
      FindIs(s, "\r\n\r\n", 0, |first|);
    } else {
      SectionStep(lines, body);
      BlankLineAt(lines[0], lines[1..], body);
      assert s[|first| + 2] == lines[0][0] && s[|first| + 1] == '\n';
      assert WellFormedLine(lines[0]);
      NotHere(s, |first|, 2);
      NotHere(s, |first| + 1, 0);
      FindShift(first + "\r\n", Section(lines, body), "\r\n\r\n");
    }
  }

  function Insert(lines: seq<string>, j: nat, line: string): seq<string>
    requires j <= |lines|
  {
    lines[..j] + [line] + lines[j..]
  }

  // Where header line `j` starts on the wire.
  function LineStart(m: Message, j: nat): nat
    requires j <= |m.lines|
  {
    |m.start| + 2 + |LinesText(m.lines[..j])|
  }

  function Mark(m: Message): Option<nat> { Find(Lower(Wire(m)), CONTENT_LENGTH, 0) }

  // The first text that looks like Content-Length, if any, starts a header line.
  predicate MarkStartsLine(m: Message) {
    Mark(m).None? || exists j :: 0 <= j < |m.lines| && LineStart(m, j) == Mark(m).value
  }

  lemma SectionSplit(lines: seq<string>, body: string, j: nat)
    requires j <= |lines|
    ensures Section(lines, body) == LinesText(lines[..j]) + Section(lines[j..], body)
  {
    assert lines == lines[..j] + lines[j..];
    LinesTextConcat(lines[..j], lines[j..]);
  }

  // Inserting a line on the wire, given where header line `j` starts.
  lemma InsertOnWire(m: Message, j: nat, line: string)
    requires j <= |m.lines|
    ensures LineStart(m, j) <= |Wire(m)|
    ensures Wire(m)[..LineStart(m, j)] + line + "\r\n" + Wire(m)[LineStart(m, j)..]
         == Wire(m.(lines := Insert(m.lines, j, line)))
  {
    hide LinesText, Section;
    var before, after := LinesText(m.lines[..j]), Section(m.lines[j..], m.body);
    SectionSplit(m.lines, m.body, j);
    assert Wire(m) == (m.start + "\r\n" + before) + after;
    assert Wire(m)[..LineStart(m, j)] == m.start + "\r\n" + before;
    var inserted := Insert(m.lines, j, line);
    assert inserted[..j] == m.lines[..j] && inserted[j..] == [line] + m.lines[j..];
    SectionSplit(inserted, m.body, j);
    SectionStep(inserted[j..], m.body);
    assert inserted[j..][1..] == m.lines[j..];
  }

  // The header line that the mark starts, or the end of the header section.
  ghost function PlaceOf(m: Message): (j: nat)
    requires MarkStartsLine(m)
    ensures j <= |m.lines|
    ensures if Mark(m).None? then j == |m.lines| else j < |m.lines| && LineStart(m, j) == Mark(m).value
  {
    if Mark(m).None? then |m.lines|
    else
      var j :| 0 <= j < |m.lines| && LineStart(m, j) == Mark(m).value;
      j
  }

  // A safe header lands as one new line exactly where a header line may stand.
  lemma AddEffect(m: Message, name: string, value: string)
    requires WellFormed(m) && NameSafe(name) && TextSafe(value) && MarkStartsLine(m)
    ensures Added(Wire(m), name, value) == Wire(m.(lines := Insert(m.lines, PlaceOf(m), HeaderLine(name, value))))
  {
    hide Find, NameSafe, TextSafe, LinesText, HeaderLine, Wire, Insert;
    var line := HeaderLine(name, value);
    InsertOnWire(m, PlaceOf(m), line);
    if Mark(m).None? {
      AddAtEnd(m, line);
    }
  }

  lemma AddAtEnd(m: Message, line: string)
    requires WellFormed(m)
    ensures LineStart(m, |m.lines|) <= |Wire(m)|
    ensures var end := Find(Wire(m), "\r\n\r\n", 0);
      && end.Some? && end.value <= |Wire(m)|
      && Wire(m)[..end.value] + "\r\n" + line + Wire(m)[end.value..]
         == Wire(m)[..LineStart(m, |m.lines|)] + line + "\r\n" + Wire(m)[LineStart(m, |m.lines|)..]
  {
    hide Find, LinesText;
    BlankLineAt(m.start, m.lines, m.body);
    assert m.lines[..|m.lines|] == m.lines;
    var end, at, w := |m.start| + |LinesText(m.lines)|, LineStart(m, |m.lines|), Wire(m);
    assert OccursAt(w, "\r\n\r\n", end);
    assert w[end..at] == w[end..end + 4][..2] == "\r\n";
    assert w[..at] == w[..end] + "\r\n";
    assert w[end..] == "\r\n" + w[at..];
  }

  // --- Setting ---

  lemma HeaderLineShape(name: string, value: string)
    requires NameSafe(name) && TextSafe(value)
    ensures WellFormedLine(HeaderLine(name, value)) && Named(HeaderLine(name, value), name)
    ensures NoBreak(name)
  {
    var line := HeaderLine(name, value);
    assert line[..|name|] == name;
    forall i | 0 <= i < |name| ensures name[i] != '\r' && name[i] != '\n' {
      assert IsToken(name[i]);
    }
  }

  lemma WithoutWellFormed(m: Message, name: string)
    requires WellFormed(m)
    ensures WellFormed(m.(lines := Without(m.lines, name)))
  {
    hide Named;
    WithoutLaws(m.lines, name);
    var kept := Without(m.lines, name);
    forall i | 0 <= i < |kept| ensures WellFormedLine(kept[i]) {
      assert kept[i] in kept;
    }
  }

  // Setting leaves exactly one header of that name, with the given value; every
  // other line stays in order, and the start line and body are untouched.
  lemma SetEffect(m: Message, name: string, value: string) returns (j: nat)
    requires WellFormed(m) && NameSafe(name) && TextSafe(value)
    requires MarkStartsLine(m.(lines := Without(m.lines, name)))
    ensures j <= |Without(m.lines, name)|
    ensures var lines := Insert(Without(m.lines, name), j, HeaderLine(name, value));
      && WithSet(Wire(m), name, value) == Wire(m.(lines := lines))
      && WellFormed(m.(lines := lines))
      && (forall i :: 0 <= i < |lines| ==> (Named(lines[i], name) <==> i == j))
      && lines[j] == HeaderLine(name, value)
      && Without(lines, name) == Without(m.lines, name)
  {
    hide NameSafe, TextSafe, MarkStartsLine, Wire, HeaderLine, Named, Added, Removed;
    var line := HeaderLine(name, value);
    HeaderLineShape(name, value);
    RemoveEffect(m, name);
    WithoutWellFormed(m, name);
    var cleared := m.(lines := Without(m.lines, name));
    j := PlaceOf(cleared);
    AddEffect(cleared, name, value);
    var rest := Without(m.lines, name);
    WithoutLaws(m.lines, name);
    forall i | 0 <= i < |rest| ensures !Named(rest[i], name) {
      assert rest[i] in rest;
    }
    WithoutInsert(rest, j, line, name);
  }

  lemma WithoutInsert(rest: seq<string>, j: nat, line: string, name: string)
    requires j <= |rest| && Named(line, name)
    requires forall i :: 0 <= i < |rest| ==> !Named(rest[i], name)
    ensures Without(Insert(rest, j, line), name) == rest
  {
    hide Named, Without;
    var a, b := rest[..j], rest[j..];
    WithoutConcat(a + [line], b, name);
    WithoutConcat(a, [line], name);
    WithoutOne(line, name);
    WithoutNone(a, name);
    WithoutNone(b, name);
    assert a + [] == a && a + b == rest;
  }

  lemma WithoutOne(line: string, name: string)
    requires Named(line, name)
    ensures Without([line], name) == []
  {
    hide Named;
    assert [line][1..] == [] && Without([line][1..], name) == [];
  }

  lemma WithoutNone(lines: seq<string>, name: string)
    requires forall i :: 0 <= i < |lines| ==> !Named(lines[i], name)
    ensures Without(lines, name) == lines
  {
    WithoutLaws(lines, name);
  }

  // Names that differ only in the case of letters name the same lines.
  lemma {:induction false} WithoutSameName(lines: seq<string>, name: string, other: string)
    requires Lower(name) == Lower(other)
    ensures Without(lines, name) == Without(lines, other)
  {
    assert |Lower(name)| == |name| && |Lower(other)| == |other|;
    if lines == [] {
    } else {
      WithoutSameName(lines[1..], name, other);
    }
  }

  // A later set of the same name, in any case of letters, overrides the earlier
  // one; setting twice the same is setting once.
  lemma SetOverrides(m: Message, name: string, other: string, first: string, second: string)
    requires WellFormed(m) && NameSafe(name) && NameSafe(other) && Lower(name) == Lower(other)
    requires TextSafe(first) && TextSafe(second)
    requires MarkStartsLine(m.(lines := Without(m.lines, name)))
    ensures WithSet(WithSet(Wire(m), name, first), other, second) == WithSet(Wire(m), other, second)
    ensures WithSet(WithSet(Wire(m), name, first), name, first) == WithSet(Wire(m), name, first)
  {
    hide NameSafe, TextSafe, MarkStartsLine, Wire, HeaderLine, Named, Added, Removed, WellFormed, Lower;
    var j := SetEffect(m, name, first);
    var lines := Insert(Without(m.lines, name), j, HeaderLine(name, first));
    HeaderLineShape(name, first);
    HeaderLineShape(other, second);
    RemoveEffect(m, name);
    RemoveEffect(m, other);
    RemoveEffect(m.(lines := lines), name);
    RemoveEffect(m.(lines := lines), other);
    WithoutSameName(m.lines, name, other);
    WithoutSameName(lines, name, other);
    assert m.(lines := lines).(lines := Without(lines, name)) == m.(lines := Without(m.lines, name));
  }
}
