// Header lines in full: which names and values are taken, and where an added line
// stands in the message.
module HeaderTexts {
  import opened HeaderLaws
  import opened HeaderMarks
  import opened Headers
  import opened Text

  // --- What is taken ---

  lemma SafeValueIff(value: string)
    ensures TextSafe(value) <==> '\0' !in value && '\r' !in value && '\n' !in value
  {
    if TextSafe(value) {
      forall i | 0 <= i < |value| ensures value[i] != '\0' && value[i] != '\r' && value[i] != '\n' {
        assert value[i] as int !in {0, 10, 13};
      }
    }
  }

  lemma SafeNameIff(name: string)
    ensures NameSafe(name)
      <==> name != "" && forall i :: 0 <= i < |name| ==>
             'a' <= name[i] <= 'z' || 'A' <= name[i] <= 'Z' || '0' <= name[i] <= '9' || name[i] in "!#$%&'*+-.^_`|~"
  {
  }

  // --- Where a line is added ---

  // The text reads "content-length:" somewhere, in any case of letters.
  predicate Mentions(text: string) { exists i :: 0 <= i <= |text| - 15 && ReadsLength(text, i) }

  predicate ReadsLength(text: string, i: int)
    requires 0 <= i <= |text| - 15
  {
    Lower(text[i..i + 15]) == "content-length:"
  }

  predicate StartsLength(line: string) { |line| >= 15 && Lower(line[..15]) == "content-length:" }

  lemma LowerSlice(s: string, i: nat)
    requires i + 15 <= |s|
    ensures Lower(s)[i..i + 15] == Lower(s[i..i + 15])
  {
  }

  lemma MentionsIff(text: string)
    ensures Mentions(text) <==> !Clean(text)
  {
    var at := Find(Lower(text), CONTENT_LENGTH, 0);
    if at.Some? {
      LowerSlice(text, at.value);
      assert ReadsLength(text, at.value);
    }
    forall i | 0 <= i <= |text| - 15 && ReadsLength(text, i) ensures at.Some? {
      LowerSlice(text, i);
      assert OccursAt(Lower(text), CONTENT_LENGTH, i);
    }
  }

  lemma StartsIff(line: string)
    ensures StartsLength(line) <==> IsContentLength(line)
  {
    if |line| >= 15 { LowerSlice(line, 0); }
  }

  // The mark of a section whose first mention starts a line is at that line.
  lemma {:induction false} MarkAtLine(lines: seq<string>, body: string, k: nat)
    requires k < |lines| && IsContentLength(lines[k]) && forall i :: 0 <= i < k ==> Clean(lines[i])
    ensures Find(Lower(Section(lines, body)), CONTENT_LENGTH, 0) == Some(|LinesText(lines[..k])|)
  {
    hide Find, Section, Lower;
    SectionStep(lines, body);
    if k == 0 {
      MarkAtFront(lines[0], Section(lines[1..], body));
      assert |LinesText(lines[..0])| == 0;
    } else {
      MarkAtLine(lines[1..], body, k - 1);
      MarkAfterLine(lines[0], Section(lines[1..], body));
      assert lines[..k] == [lines[0]] + lines[1..][..k - 1];
      assert lines[..k][1..] == lines[1..][..k - 1];
    }
  }

  lemma {:induction false} NoMarkInSection(lines: seq<string>, body: string)
    requires Clean(body) && forall i :: 0 <= i < |lines| ==> Clean(lines[i])
    ensures Find(Lower(Section(lines, body)), CONTENT_LENGTH, 0).None?
  {
    hide Find, Section, Lower;
    if lines == [] {
      SectionEnd(body);
      assert Section(lines, body) == "" + "\r\n" + body;
      EmptyIsClean();
      MarkAfterLine("", body);
    } else {
      SectionStep(lines, body);
      NoMarkInSection(lines[1..], body);
      MarkAfterLine(lines[0], Section(lines[1..], body));
    }
  }

  lemma StartsInOrder(m: Message, i: nat, j: nat)
    requires i < j <= |m.lines|
    ensures LineStart(m, i) < LineStart(m, j)
  {
    assert m.lines[..j] == m.lines[..i] + m.lines[i..j];
    LinesTextConcat(m.lines[..i], m.lines[i..j]);
    assert |LinesText(m.lines[i..j])| >= 2;
  }

  // An added header stands as a line of its own just before the Content-Length line,
  // when nothing mentions it earlier.
  lemma AddedBeforeLength(m: Message, name: string, value: string, k: nat)
    requires WellFormed(m) && NameSafe(name) && TextSafe(value)
    requires k < |m.lines| && StartsLength(m.lines[k]) && !Mentions(m.start)
    requires forall i :: 0 <= i < k ==> !Mentions(m.lines[i])
    ensures Added(Wire(m), name, value) == Wire(m.(lines := m.lines[..k] + [name + ": " + value] + m.lines[k..]))
  {
    hide NameSafe, TextSafe, WellFormed, Find, Lower, Mentions, StartsLength, Section, LinesText, OccursAt;
    MentionsIff(m.start);
    forall i | 0 <= i < k ensures Clean(m.lines[i]) { MentionsIff(m.lines[i]); }
    StartsIff(m.lines[k]);
    MarkAtLine(m.lines, m.body, k);
    MarkAfterLine(m.start, Section(m.lines, m.body));
    assert Mark(m) == Some(LineStart(m, k));
    assert MarkStartsLine(m);
    var j := PlaceOf(m);
    if j < k { StartsInOrder(m, j, k); } else if k < j { StartsInOrder(m, k, j); }
    AddEffect(m, name, value);
  }

  // And after all other lines when nothing mentions it at all.
  lemma AddedLast(m: Message, name: string, value: string)
    requires WellFormed(m) && NameSafe(name) && TextSafe(value)
    requires !Mentions(m.start) && !Mentions(m.body) && forall i :: 0 <= i < |m.lines| ==> !Mentions(m.lines[i])
    ensures Added(Wire(m), name, value) == Wire(m.(lines := m.lines + [name + ": " + value]))
  {
    hide NameSafe, TextSafe, WellFormed, Find, Lower, Mentions, Section, LinesText, OccursAt;
    MentionsIff(m.start);
    MentionsIff(m.body);
    forall i | 0 <= i < |m.lines| ensures Clean(m.lines[i]) { MentionsIff(m.lines[i]); }
    NoMarkInSection(m.lines, m.body);
    MarkAfterLine(m.start, Section(m.lines, m.body));
    assert Mark(m).None?;
    AddEffect(m, name, value);
    assert m.lines[..|m.lines|] == m.lines && m.lines[|m.lines|..] == [];
    assert m.lines + [name + ": " + value] + [] == m.lines + [name + ": " + value];
  }
}
