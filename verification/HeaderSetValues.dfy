// Which values a batch can set: the entries of its lists are trimmed, so a value
// that ends in a blank is cut short and a blank one is not set at all.
module HeaderSetValues {
  import opened HeaderBatch
  import opened HeaderLaws
  import opened Headers
  import opened Text

  predicate Blank(s: string) { forall i :: 0 <= i < |s| ==> IsBlank(s[i]) }

  // Trimming leaves the value alone.
  predicate Survives(value: string) { value != "" && !IsBlank(value[|value| - 1]) }

  // A safe field without the separator of the batch's lists; its value is any text.
  predicate Listable(f: Field) { SafeField(f) && !Contains(f.name, '|') && !Contains(f.value, '|') }

  // The lines that `Without` takes away.
  function NamedLines(lines: seq<string>, name: string): seq<string> {
    if lines == [] then []
    else (if Named(lines[0], name) then [lines[0]] else []) + NamedLines(lines[1..], name)
  }

  // --- Trimming a header line ---

  lemma {:induction false} TrimRightShape(s: string)
    ensures |TrimRight(s)| <= |s| && TrimRight(s) == s[..|TrimRight(s)|]
    ensures TrimRight(s) != "" ==> Survives(TrimRight(s))
    ensures TrimRight(s) == "" <==> Blank(s)
    ensures TrimRight(s) == s <==> s == "" || Survives(s)
  {
    if s == "" || !IsBlank(s[|s| - 1]) {
    } else {
      TrimRightShape(s[..|s| - 1]);
    }
  }

  lemma {:induction false} TrimRightAppend(a: string, b: string)
    ensures TrimRight(a + b) == if Blank(b) then TrimRight(a) else a + TrimRight(b)
  {
    if b == "" {
      assert a + b == a;
    } else if IsBlank(b[|b| - 1]) {
      assert (a + b)[..|a + b| - 1] == a + b[..|b| - 1];
      TrimRightAppend(a, b[..|b| - 1]);
    } else {
      assert (a + b)[|a + b| - 1] == b[|b| - 1];
    }
  }

  // The entry that a field's line becomes.
  lemma TrimmedLine(f: Field)
    requires NameSafe(f.name)
    ensures Trim(LineOf(f)) == if Blank(f.value) then f.name + ":" else LineOf(f.(value := TrimRight(f.value)))
  {
    var line := LineOf(f);
    assert line[0] == f.name[0];
    TokenIsNoSpace(f.name[0]);
    assert TrimLeft(line) == line;
    TrimRightAppend(f.name + ": ", f.value);
    assert f.name + ": " == (f.name + ":") + " ";
    TrimRightAppend(f.name + ":", " ");
  }

  lemma OneEntry(f: Field)
    requires Listable(f)
    ensures Entries(Split(LineOf(f), '|')) == [Trim(LineOf(f))]
  {
    hide Trim, Split;
    var line := LineOf(f);
    forall i | 0 <= i < |line| ensures line[i] != '|' {
      assert i < |f.name| ==> line[i] == f.name[i];
      assert i >= |f.name| + 2 ==> line[i] == f.value[i - |f.name| - 2];
    }
    SplitOfJoin([line], '|');
    TrimmedLine(f);
    assert [line][1..] == [] && Entries([line][1..]) == [];
  }

  // A name alone is no "Name: value" entry.
  lemma BareNameIsNoPair(name: string)
    requires NameSafe(name)
    ensures Pairs([name + ":"]) == [] && PairNames([name + ":"]) == []
  {
    var entry := name + ":";
    forall i | 0 <= i ensures !OccursAt(entry, ": ", i) {
      if i + 2 <= |entry| {
        TokenIsNoSpace(name[i]);
        assert entry[i..i + 2][0] == name[i];
      }
    }
    PairsStep(entry, []);
    assert [entry] + [] == [entry];
  }

  lemma {:induction false} NothingDropped(lines: seq<string>)
    ensures NotDropped(lines, []) == lines
  {
    if lines == [] {
    } else {
      NothingDropped(lines[1..]);
    }
  }

  // --- What the batch writes for one field ---

  lemma BatchOfOne(m: Message, f: Field)
    ensures Batch(Wire(m), [], [f], []) == BatchRewritten(Wire(m), "", LineOf(f), "")
  {
    hide BatchRewritten, Wire, LineOf;
    assert [f][1..] == [];
    assert LinesOf([f]) == [LineOf(f)];
  }

  // A blank value: nothing is dropped and nothing is set.
  lemma BlankSetsNothing(m: Message, f: Field)
    requires WellFormed(m) && Listable(f) && Blank(f.value)
    ensures Batch(Wire(m), [], [f], []) == Wire(m)
  {
    hide WellFormed, Wire, Trim, Split, Entries, LineOf;
    BatchOfOne(m, f);
    OneEntry(f);
    TrimmedLine(f);
    BareNameIsNoPair(f.name);
    EntriesOfJoin([], ',');
    EntriesOfJoin([], '|');
    BatchEffect(m, "", LineOf(f), "");
    NothingDropped(m.lines);
    assert m.(lines := m.lines + [] + []) == m;
  }

  // Any other value: its trimmed form is set.
  lemma TrimmedIsSet(m: Message, f: Field)
    requires BatchInput(m, [], [], []) && Listable(f) && !Blank(f.value)
    ensures Batch(Wire(m), [], [f], [])
         == Wire(m.(lines := Without(m.lines, f.name) + [LineOf(f.(value := TrimRight(f.value)))]))
  {
    hide WellFormed, Tidy, Wire, Trim, Split, Entries, LineOf, NameSafe, Without;
    var g := f.(value := TrimRight(f.value));
    TrimRightShape(f.value);
    assert Portable(g) && Listable(g);
    BatchOfOne(m, f);
    BatchOfOne(m, g);
    OneEntry(f);
    OneEntry(g);
    TrimmedLine(f);
    TrimmedLine(g);
    TrimRightShape(g.value);
    BatchLines(m, [], [g], []);
    assert [g][1..] == [];
    OneName(m.lines, g);
    assert LinesOf([g]) == [LineOf(g)];
    assert Without(m.lines, f.name) + [LineOf(g)] + [] == Without(m.lines, f.name) + [LineOf(g)];
  }

  lemma OneName(lines: seq<string>, g: Field)
    ensures WithoutAll(lines, [] + NamesOf([g])) == Without(lines, g.name)
  {
    hide Without;
    assert [g][1..] == [];
    assert [] + NamesOf([g]) == [g.name] && [g.name][1..] == [];
    assert WithoutAll(Without(lines, g.name), []) == Without(lines, g.name);
  }

  lemma SetEachOne(msg: string, f: Field)
    ensures OneByOne(msg, [], [f], []) == WithSet(msg, f.name, f.value)
  {
    hide WithSet;
    assert [f][1..] == [];
    assert SetEach(msg, [f]) == SetEach(WithSet(msg, f.name, f.value), []);
  }

  // --- Comparing the two ---

  lemma {:induction false} LinesByName(lines: seq<string>, name: string)
    ensures multiset(lines) == multiset(Without(lines, name)) + multiset(NamedLines(lines, name))
  {
    hide Named;
    if lines == [] {
    } else {
      LinesByName(lines[1..], name);
      assert lines == [lines[0]] + lines[1..];
    }
  }

  lemma SameButOne(a: multiset<string>, x: string, y: string)
    ensures a + multiset{x} == a + multiset{y} <==> x == y
  {
    assert (a + multiset{x})[x] == a[x] + 1;
    assert x != y ==> (a + multiset{y})[x] == a[x];
  }

  lemma OnlyOne(a: multiset<string>, lines: seq<string>, line: string)
    ensures a + multiset(lines) == a + multiset{line} <==> lines == [line]
  {
    if a + multiset(lines) == a + multiset{line} {
      assert multiset(lines) == multiset{line} by {
        assert multiset(lines) == (a + multiset(lines)) - a;
        assert multiset{line} == (a + multiset{line}) - a;
      }
      assert |lines| == |multiset(lines)| == 1;
      assert lines[0] in multiset(lines);
    }
  }

  lemma TrimmedLineDiffers(f: Field)
    ensures LineOf(f.(value := TrimRight(f.value))) == LineOf(f) <==> TrimRight(f.value) == f.value
  {
    var n := |f.name| + 2;
    assert LineOf(f)[n..] == f.value && LineOf(f.(value := TrimRight(f.value)))[n..] == TrimRight(f.value);
  }

  // Setting one header by batch and setting it alone give the same header lines, up
  // to order, exactly when trimming leaves its value alone, or the value is blank
  // and the message had just this one header of that name already.
  lemma SetAgreesIff(m: Message, f: Field) returns (batch: Message, stepwise: Message)
    requires BatchInput(m, [], [], []) && Listable(f) && MarkStartsLine(Cleared(m, f))
    ensures Batch(Wire(m), [], [f], []) == Wire(batch) && WellFormed(batch)
    ensures OneByOne(Wire(m), [], [f], []) == Wire(stepwise) && WellFormed(stepwise)
    ensures batch.start == stepwise.start == m.start && batch.body == stepwise.body == m.body
    ensures multiset(batch.lines) == multiset(stepwise.lines)
        <==> Survives(f.value) || (Blank(f.value) && NamedLines(m.lines, f.name) == [LineOf(f)])
  {
    hide Tidy, Wire, Named, Without, LineOf, Batch, OneByOne, MarkStartsLine, TextSafe, NameSafe, NamedLines, WellFormed, Insert;
    SetStep(m, f);
    SetEachOne(Wire(m), f);
    stepwise := Placed(Cleared(m, f), f);
    var kept := Without(m.lines, f.name);
    TrimRightShape(f.value);
    if Blank(f.value) {
      BlankSetsNothing(m, f);
      batch := m;
      LinesByName(m.lines, f.name);
      OnlyOne(multiset(kept), NamedLines(m.lines, f.name), LineOf(f));
    } else {
      var g := f.(value := TrimRight(f.value));
      TrimmedIsSet(m, f);
      batch := m.(lines := kept + [LineOf(g)]);
      TrimmedWellFormed(m, f, g);
      SameButOne(multiset(kept), LineOf(g), LineOf(f));
      TrimmedLineDiffers(f);
      assert f.value != "";
    }
  }

  lemma TrimmedWellFormed(m: Message, f: Field, g: Field)
    requires WellFormed(m) && SafeField(f) && g == f.(value := TrimRight(f.value))
    ensures WellFormed(m.(lines := Without(m.lines, f.name) + [LineOf(g)]))
  {
    hide Without, NameSafe;
    WithoutWellFormed(m, f.name);
    TrimRightShape(f.value);
    HeaderLineShape(g.name, g.value);
  }
}
