// One batch scan against removing, setting and adding the same headers one by one.
module HeaderBatch {
  import opened HeaderLaws
  import opened HeaderMarks
  import opened Headers
  import opened Text

  datatype Field = Field(name: string, value: string)

  function LineOf(f: Field): string { HeaderLine(f.name, f.value) }

  function LinesOf(fields: seq<Field>): seq<string> {
    if fields == [] then [] else [LineOf(fields[0])] + LinesOf(fields[1..])
  }

  function NamesOf(fields: seq<Field>): seq<string> {
    if fields == [] then [] else [fields[0].name] + NamesOf(fields[1..])
  }

  // --- One by one ---

  function RemoveEach(msg: string, names: seq<string>): string
    decreases names
  {
    if names == [] then msg else RemoveEach(Removed(msg, names[0]), names[1..])
  }

  function SetEach(msg: string, fields: seq<Field>): string
    decreases fields
  {
    if fields == [] then msg else SetEach(WithSet(msg, fields[0].name, fields[0].value), fields[1..])
  }

  function AddEach(msg: string, fields: seq<Field>): string
    decreases fields
  {
    if fields == [] then msg else AddEach(Added(msg, fields[0].name, fields[0].value), fields[1..])
  }

  function OneByOne(msg: string, removes: seq<string>, sets: seq<Field>, adds: seq<Field>): string {
    AddEach(SetEach(RemoveEach(msg, removes), sets), adds)
  }

  function Batch(msg: string, removes: seq<string>, sets: seq<Field>, adds: seq<Field>): string {
    BatchRewritten(msg, Join(removes, ","), Join(LinesOf(sets), "|"), Join(LinesOf(adds), "|"))
  }

  // --- Conditions on the inputs ---

  // A field the lists of a batch can carry: safe, without the list's separator,
  // and with a value that trimming leaves alone.
  predicate Portable(f: Field) {
    && NameSafe(f.name) && TextSafe(f.value)
    && !Contains(f.name, '|') && !Contains(f.value, '|')
    && f.value != "" && !IsBlank(f.value[|f.value| - 1])
  }

  // A header name is not preceded or followed by blanks.
  predicate Tidy(line: string) {
    var colon := ColonOf(line);
    colon.Some? && colon.value > 0 ==> !IsBlank(line[0]) && !IsBlank(line[colon.value - 1])
  }

  predicate DistinctNames(fields: seq<Field>) {
    forall i, j :: 0 <= i < j < |fields| ==> Lower(fields[i].name) != Lower(fields[j].name)
  }

  // --- Reading the lists of a batch ---

  lemma {:induction false} EntriesFixed(parts: seq<string>)
    requires forall i :: 0 <= i < |parts| ==> parts[i] != "" && Trim(parts[i]) == parts[i]
    ensures Entries(parts) == parts
  {
    hide Trim;
    if parts == [] {
    } else {
      EntriesFixed(parts[1..]);
    }
  }

  lemma EntriesOfJoin(parts: seq<string>, sep: char)
    requires forall i :: 0 <= i < |parts| ==>
      parts[i] != "" && Trim(parts[i]) == parts[i] && !Contains(parts[i], sep)
    ensures Entries(Split(Join(parts, [sep]), sep)) == parts
  {
    hide Trim, Contains;
    if parts == [] {
      assert Split("", sep) == [""];
      assert Trim("") == "" by { TrimEmpty(); }
      assert [""][1..] == [];
      assert Entries([""][1..]) == [];
    } else {
      SplitOfJoin(parts, sep);
      EntriesFixed(parts);
    }
  }

  lemma TrimEmpty()
    ensures Trim("") == ""
  {
  }

  lemma {:induction false} LinesOfAt(fields: seq<Field>)
    ensures |LinesOf(fields)| == |NamesOf(fields)| == |fields|
    ensures forall i :: 0 <= i < |fields| ==> LinesOf(fields)[i] == LineOf(fields[i]) && NamesOf(fields)[i] == fields[i].name
  {
    hide LineOf;
    if fields == [] {
    } else {
      LinesOfAt(fields[1..]);
    }
  }

  lemma TokenIsNoSpace(c: char)
    requires IsToken(c)
    ensures !IsBlank(c) && c !in ",:\r\n" && LowerChar(c) !in ",:\r\n "
  {
  }

  lemma PortableLine(f: Field)
    requires Portable(f)
    ensures LineOf(f) != "" && Trim(LineOf(f)) == LineOf(f) && !Contains(LineOf(f), '|')
    ensures IsPair(LineOf(f)) && Find(LineOf(f), ": ", 0) == Some(|f.name|)
    ensures LineOf(f)[..|f.name|] == f.name
  {
    var line, n := LineOf(f), |f.name|;
    assert line[0] == f.name[0] && line[|line| - 1] == f.value[|f.value| - 1];
    TokenIsNoSpace(f.name[0]);
    TrimFixed(line);
    assert line[n..n + 2] == ": ";
    forall i | 0 <= i < n ensures !OccursAt(line, ": ", i) {
      TokenIsNoSpace(f.name[i]);
      assert line[i] == f.name[i];
      assert i + 2 <= |line| ==> line[i..i + 2][0] == line[i];
    }
    FindIs(line, ": ", 0, n);
    forall i | 0 <= i < |line| ensures line[i] != '|' {
      if i < n { assert line[i] == f.name[i]; } else if i >= n + 2 { assert line[i] == f.value[i - n - 2]; }
    }
  }

  lemma {:induction false} PairsOfLines(fields: seq<Field>)
    requires forall i :: 0 <= i < |fields| ==> Portable(fields[i])
    ensures Pairs(LinesOf(fields)) == LinesOf(fields)
    ensures PairNames(LinesOf(fields)) == LowerAll(NamesOf(fields))
  {
    hide LineOf, Portable, IsPair, Find;
    if fields == [] {
    } else {
      PairsOfLines(fields[1..]);
      PortableLine(fields[0]);
      PairsStep(LineOf(fields[0]), LinesOf(fields[1..]));
      assert ([fields[0].name] + NamesOf(fields[1..]))[1..] == NamesOf(fields[1..]);
    }
  }

  lemma NameEntry(name: string)
    requires NameSafe(name)
    ensures name != "" && Trim(name) == name && !Contains(name, ',')
  {
    forall i | 0 <= i < |name| ensures !IsBlank(name[i]) && name[i] != ',' {
      TokenIsNoSpace(name[i]);
    }
    TrimFixed(name);
  }

  // The batch reads back exactly the names and lines its lists were made from.
  lemma ListsReadBack(removes: seq<string>, sets: seq<Field>, adds: seq<Field>)
    requires forall i :: 0 <= i < |removes| ==> NameSafe(removes[i])
    requires forall i :: 0 <= i < |sets| ==> Portable(sets[i])
    requires forall i :: 0 <= i < |adds| ==> Portable(adds[i])
    ensures LowerAll(Entries(Split(Join(removes, ","), ','))) == LowerAll(removes)
    ensures Pairs(Entries(Split(Join(LinesOf(sets), "|"), '|'))) == LinesOf(sets)
    ensures PairNames(Entries(Split(Join(LinesOf(sets), "|"), '|'))) == LowerAll(NamesOf(sets))
    ensures Entries(Split(Join(LinesOf(adds), "|"), '|')) == LinesOf(adds)
  {
    hide NameSafe, Portable, Split, Join, Entries, Trim, Contains, LineOf, LinesOf;
    forall i | 0 <= i < |removes|
      ensures removes[i] != "" && Trim(removes[i]) == removes[i] && !Contains(removes[i], ',')
    {
      NameEntry(removes[i]);
    }
    EntriesOfJoin(removes, ',');
    FieldsReadBack(sets);
    FieldsReadBack(adds);
    PairsOfLines(sets);
  }

  lemma FieldsReadBack(fields: seq<Field>)
    requires forall i :: 0 <= i < |fields| ==> Portable(fields[i])
    ensures Entries(Split(Join(LinesOf(fields), "|"), '|')) == LinesOf(fields)
  {
    hide Portable, Split, Join, Entries, Trim, Contains, LineOf, LinesOf;
    LinesOfAt(fields);
    var lines := LinesOf(fields);
    forall i | 0 <= i < |lines| ensures lines[i] != "" && Trim(lines[i]) == lines[i] && !Contains(lines[i], '|') {
      PortableLine(fields[i]);
    }
    EntriesOfJoin(lines, '|');
  }

  // --- The same lines are dropped ---

  lemma {:induction false} ColonAt(line: string, n: nat)
    requires n < |line| && line[n] == ':' && forall i :: 0 <= i < n ==> line[i] !in ":\r\n"
    ensures ColonOf(line) == Some(n)
  {
    if n == 0 {
    } else {
      ColonAt(line[1..], n - 1);
    }
  }

  lemma NamedColon(line: string, name: string)
    requires NameSafe(name) && Named(line, name)
    ensures ColonOf(line) == Some(|name|)
  {
    forall i | 0 <= i < |name| ensures line[i] !in ":\r\n" {
      TokenIsNoSpace(name[i]);
      assert Lower(line[..|name|])[i] == Lower(name)[i];
    }
    ColonAt(line, |name|);
  }

  // On a tidy line both ways of matching a name agree.
  lemma NamedIff(line: string, name: string)
    requires Tidy(line) && NameSafe(name)
    ensures Named(line, name)
        <==> ColonOf(line).Some? && ColonOf(line).value > 0 && Lower(Trim(line[..ColonOf(line).value])) == Lower(name)
  {
    if Named(line, name) {
      NamedColon(line, name);
    }
    if ColonOf(line).Some? && ColonOf(line).value > 0 {
      var head := line[..ColonOf(line).value];
      TrimFixed(head);
      assert |Lower(head)| == |head| && |Lower(name)| == |name|;
    }
  }

  lemma {:induction false} LowerAllAt(names: seq<string>, key: string)
    ensures key in LowerAll(names) <==> exists i :: 0 <= i < |names| && Lower(names[i]) == key
  {
    if names == [] {
    } else {
      LowerAllAt(names[1..], key);
      if i :| 0 <= i < |names| && Lower(names[i]) == key {
        assert i > 0 ==> names[1..][i - 1] == names[i];
      }
    }
  }

  lemma DroppedIff(line: string, names: seq<string>)
    requires Tidy(line) && forall i :: 0 <= i < |names| ==> NameSafe(names[i])
    ensures Dropped(line, LowerAll(names)) <==> NamedByAny(line, names)
  {
    hide Tidy, NameSafe, Named, Trim, Lower, LowerAll;
    forall i | 0 <= i < |names|
      ensures Named(line, names[i])
          <==> ColonOf(line).Some? && ColonOf(line).value > 0 && Lower(Trim(line[..ColonOf(line).value])) == Lower(names[i])
    {
      NamedIff(line, names[i]);
    }
    if ColonOf(line).Some? {
      LowerAllAt(names, Lower(Trim(line[..ColonOf(line).value])));
    }
  }

  function WithoutAll(lines: seq<string>, names: seq<string>): seq<string>
    decreases names
  {
    if names == [] then lines else WithoutAll(Without(lines, names[0]), names[1..])
  }

  lemma {:induction false} WithoutAllConcat(a: seq<string>, b: seq<string>, names: seq<string>)
    ensures WithoutAll(a + b, names) == WithoutAll(a, names) + WithoutAll(b, names)
    decreases names
  {
    hide Without;
    if names == [] {
    } else {
      WithoutConcat(a, b, names[0]);
      WithoutAllConcat(Without(a, names[0]), Without(b, names[0]), names[1..]);
    }
  }

  lemma {:induction false} WithoutAllOne(line: string, names: seq<string>)
    ensures WithoutAll([line], names) == if NamedByAny(line, names) then [] else [line]
  {
    hide Named;
    if names == [] {
    } else {
      assert [line][1..] == [] && Without([line][1..], names[0]) == [];
      var one := Without([line], names[0]);
      assert one == if Named(line, names[0]) then [] else [line];
      if Named(line, names[0]) {
        WithoutAllNone(names[1..]);
      } else {
        WithoutAllOne(line, names[1..]);
        NamedByRest(line, names);
      }
    }
  }

  lemma NamedByRest(line: string, names: seq<string>)
    requires names != [] && !Named(line, names[0])
    ensures NamedByAny(line, names) <==> NamedByAny(line, names[1..])
  {
    hide Named;
    if i :| 0 <= i < |names| && Named(line, names[i]) {
      assert names[1..][i - 1] == names[i];
    }
    if i :| 0 <= i < |names[1..]| && Named(line, names[1..][i]) {
      assert names[i + 1] == names[1..][i];
    }
  }

  lemma {:induction false} WithoutAllNone(names: seq<string>)
    ensures WithoutAll([], names) == []
  {
    if names == [] {
    } else {
      WithoutAllNone(names[1..]);
    }
  }

  lemma {:induction false} SameLinesKept(lines: seq<string>, names: seq<string>)
    requires forall i :: 0 <= i < |lines| ==> Tidy(lines[i])
    requires forall i :: 0 <= i < |names| ==> NameSafe(names[i])
    ensures NotDropped(lines, LowerAll(names)) == WithoutAll(lines, names)
  {
    hide Tidy, NameSafe, Dropped, NamedByAny, LowerAll, WithoutAll;
    if lines == [] {
      WithoutAllNone(names);
    } else {
      SameLinesKept(lines[1..], names);
      DroppedIff(lines[0], names);
      WithoutAllOne(lines[0], names);
      WithoutAllConcat([lines[0]], lines[1..], names);
      assert lines == [lines[0]] + lines[1..];
    }
  }

  // --- Running the steps one by one ---

  function Cleared(m: Message, f: Field): Message { m.(lines := Without(m.lines, f.name)) }

  ghost function Placed(m: Message, f: Field): Message
    requires MarkStartsLine(m)
  {
    m.(lines := Insert(m.lines, PlaceOf(m), LineOf(f)))
  }

  // At every addition the first text that looks like Content-Length starts a
  // header line or is absent.
  ghost predicate AddsLand(m: Message, adds: seq<Field>)
    decreases adds
  {
    adds == [] || (MarkStartsLine(m) && AddsLand(Placed(m, adds[0]), adds[1..]))
  }

  ghost function AfterAdds(m: Message, adds: seq<Field>): Message
    requires AddsLand(m, adds)
    decreases adds
  {
    if adds == [] then m else AfterAdds(Placed(m, adds[0]), adds[1..])
  }

  // The same at every set, once the old headers of that name are gone.
  ghost predicate SetsLand(m: Message, sets: seq<Field>)
    decreases sets
  {
    sets == []
    || (MarkStartsLine(Cleared(m, sets[0])) && SetsLand(Placed(Cleared(m, sets[0]), sets[0]), sets[1..]))
  }

  ghost function AfterSets(m: Message, sets: seq<Field>): Message
    requires SetsLand(m, sets)
    decreases sets
  {
    if sets == [] then m else AfterSets(Placed(Cleared(m, sets[0]), sets[0]), sets[1..])
  }

  ghost predicate StepsLand(m: Message, removes: seq<string>, sets: seq<Field>, adds: seq<Field>) {
    var removed := m.(lines := WithoutAll(m.lines, removes));
    SetsLand(removed, sets) && AddsLand(AfterSets(removed, sets), adds)
  }

  predicate SafeField(f: Field) { NameSafe(f.name) && TextSafe(f.value) }

  lemma {:induction false} RemoveEachEffect(m: Message, names: seq<string>)
    requires WellFormed(m) && forall i :: 0 <= i < |names| ==> NameSafe(names[i])
    ensures RemoveEach(Wire(m), names) == Wire(m.(lines := WithoutAll(m.lines, names)))
    ensures WellFormed(m.(lines := WithoutAll(m.lines, names)))
    decreases names
  {
    hide WellFormed, NameSafe, Without, Wire, Removed;
    if names == [] {
    } else {
      HeaderNameNoBreak(names[0]);
      RemoveEffect(m, names[0]);
      WithoutWellFormed(m, names[0]);
      RemoveEachEffect(m.(lines := Without(m.lines, names[0])), names[1..]);
    }
  }

  lemma HeaderNameNoBreak(name: string)
    requires NameSafe(name)
    ensures NoBreak(name)
  {
    forall i | 0 <= i < |name| ensures name[i] != '\r' && name[i] != '\n' {
      TokenIsNoSpace(name[i]);
    }
  }

  lemma InsertWellFormed(m: Message, j: nat, line: string)
    requires WellFormed(m) && j <= |m.lines| && WellFormedLine(line)
    ensures WellFormed(m.(lines := Insert(m.lines, j, line)))
    ensures multiset(Insert(m.lines, j, line)) == multiset(m.lines) + multiset{line}
  {
    assert m.lines == m.lines[..j] + m.lines[j..];
  }

  lemma AddStep(m: Message, f: Field)
    requires WellFormed(m) && MarkStartsLine(m) && SafeField(f)
    ensures Added(Wire(m), f.name, f.value) == Wire(Placed(m, f)) && WellFormed(Placed(m, f))
    ensures multiset(Placed(m, f).lines) == multiset(m.lines) + multiset{LineOf(f)}
  {
    hide WellFormed, WellFormedLine, NameSafe, TextSafe, Wire, Added, Insert, MarkStartsLine, HeaderLine;
    HeaderLineShape(f.name, f.value);
    AddEffect(m, f.name, f.value);
    InsertWellFormed(m, PlaceOf(m), LineOf(f));
  }

  lemma {:induction false} AddEachEffect(m: Message, adds: seq<Field>)
    requires WellFormed(m) && AddsLand(m, adds) && forall i :: 0 <= i < |adds| ==> SafeField(adds[i])
    ensures AddEach(Wire(m), adds) == Wire(AfterAdds(m, adds)) && WellFormed(AfterAdds(m, adds))
    ensures AfterAdds(m, adds).start == m.start && AfterAdds(m, adds).body == m.body
    ensures multiset(AfterAdds(m, adds).lines) == multiset(m.lines) + multiset(LinesOf(adds))
    decreases adds
  {
    hide WellFormed, MarkStartsLine, SafeField, Wire, Added, Insert, LineOf;
    if adds == [] {
    } else {
      AddStep(m, adds[0]);
      AddEachEffect(Placed(m, adds[0]), adds[1..]);
    }
  }

  lemma SetStep(m: Message, f: Field)
    requires WellFormed(m) && MarkStartsLine(Cleared(m, f)) && SafeField(f)
    ensures var t := Placed(Cleared(m, f), f);
      && WithSet(Wire(m), f.name, f.value) == Wire(t) && WellFormed(t)
      && multiset(t.lines) == multiset(Without(m.lines, f.name)) + multiset{LineOf(f)}
  {
    hide WellFormed, NameSafe, TextSafe, Wire, Added, Removed, Without, Insert, LineOf, MarkStartsLine;
    HeaderNameNoBreak(f.name);
    RemoveEffect(m, f.name);
    WithoutWellFormed(m, f.name);
    AddStep(Cleared(m, f), f);
  }

  // A line named by none of `names` goes through their removal unharmed.
  lemma InsertSurvives(lines: seq<string>, j: nat, line: string, names: seq<string>)
    requires j <= |lines| && !NamedByAny(line, names)
    ensures multiset(WithoutAll(Insert(lines, j, line), names)) == multiset(WithoutAll(lines, names)) + multiset{line}
  {
    hide WithoutAll, NamedByAny;
    var a, b := lines[..j], lines[j..];
    assert lines == a + b;
    WithoutAllConcat(a, b, names);
    WithoutAllConcat(a + [line], b, names);
    WithoutAllConcat(a, [line], names);
    WithoutAllOne(line, names);
  }

  lemma OtherNamesMiss(f: Field, names: seq<string>)
    requires NameSafe(f.name)
    requires forall i :: 0 <= i < |names| ==> NameSafe(names[i]) && Lower(names[i]) != Lower(f.name)
    ensures !NamedByAny(LineOf(f), names)
  {
    var line := LineOf(f);
    assert Named(line, f.name) by { assert line[..|f.name|] == f.name; }
    NamedColon(line, f.name);
    forall i | 0 <= i < |names| ensures !Named(line, names[i]) {
      if Named(line, names[i]) { NamedColon(line, names[i]); }
    }
  }

  lemma {:induction false} SetEachEffect(m: Message, sets: seq<Field>)
    requires WellFormed(m) && SetsLand(m, sets) && DistinctNames(sets)
    requires forall i :: 0 <= i < |sets| ==> SafeField(sets[i])
    ensures SetEach(Wire(m), sets) == Wire(AfterSets(m, sets)) && WellFormed(AfterSets(m, sets))
    ensures AfterSets(m, sets).start == m.start && AfterSets(m, sets).body == m.body
    ensures multiset(AfterSets(m, sets).lines) == multiset(WithoutAll(m.lines, NamesOf(sets))) + multiset(LinesOf(sets))
    decreases sets
  {
    hide WellFormed, MarkStartsLine, NameSafe, TextSafe, Wire, WithSet, Insert, LineOf, Without, Lower;
    if sets == [] {
    } else {
      var f, rest := sets[0], sets[1..];
      var cleared := Cleared(m, f);
      SetStep(m, f);
      SetEachEffect(Placed(cleared, f), rest);
      LinesOfAt(rest);
      forall i | 0 <= i < |NamesOf(rest)|
        ensures NameSafe(NamesOf(rest)[i]) && Lower(NamesOf(rest)[i]) != Lower(f.name)
      {
        assert NamesOf(rest)[i] == sets[i + 1].name && SafeField(sets[i + 1]);
      }
      OtherNamesMiss(f, NamesOf(rest));
      InsertSurvives(cleared.lines, PlaceOf(cleared), LineOf(f), NamesOf(rest));
      assert ([f.name] + NamesOf(rest))[1..] == NamesOf(rest);
    }
  }

  lemma {:induction false} WithoutAllTwice(lines: seq<string>, a: seq<string>, b: seq<string>)
    ensures WithoutAll(lines, a + b) == WithoutAll(WithoutAll(lines, a), b)
    decreases a
  {
    hide Without;
    if a == [] {
      assert a + b == b;
    } else {
      assert (a + b)[1..] == a[1..] + b;
      WithoutAllTwice(Without(lines, a[0]), a[1..], b);
    }
  }

  lemma {:induction false} LowerAllConcat(a: seq<string>, b: seq<string>)
    ensures LowerAll(a + b) == LowerAll(a) + LowerAll(b)
  {
    hide Lower;
    if a == [] {
      assert a + b == b;
    } else {
      assert (a + b)[1..] == a[1..] + b;
      LowerAllConcat(a[1..], b);
    }
  }

  // --- Main result ---

  // What a batch is given: a well-formed message with tidy lines, safe names, and
  // fields its lists can carry.
  predicate BatchInput(m: Message, removes: seq<string>, sets: seq<Field>, adds: seq<Field>) {
    && WellFormed(m) && (forall i :: 0 <= i < |m.lines| ==> Tidy(m.lines[i]))
    && (forall i :: 0 <= i < |removes| ==> NameSafe(removes[i]))
    && (forall i :: 0 <= i < |sets| ==> Portable(sets[i]))
    && (forall i :: 0 <= i < |adds| ==> Portable(adds[i]))
  }

  // What the batch writes: the lines not named, in order, then the sets, then the adds.
  lemma BatchLines(m: Message, removes: seq<string>, sets: seq<Field>, adds: seq<Field>)
    requires BatchInput(m, removes, sets, adds)
    ensures Batch(Wire(m), removes, sets, adds)
         == Wire(m.(lines := WithoutAll(m.lines, removes + NamesOf(sets)) + LinesOf(sets) + LinesOf(adds)))
  {
    hide WellFormed, Tidy, NameSafe, Portable, Wire, BatchRewritten, NotDropped, WithoutAll,
      LinesOf, Join, Split, Entries, Pairs, PairNames, LowerAll, LineOf;
    ListsReadBack(removes, sets, adds);
    BatchEffect(m, Join(removes, ","), Join(LinesOf(sets), "|"), Join(LinesOf(adds), "|"));
    LowerAllConcat(removes, NamesOf(sets));
    LinesOfAt(sets);
    forall i | 0 <= i < |NamesOf(sets)| ensures NameSafe(NamesOf(sets)[i]) {
      PortableIsSafe(sets[i]);
    }
    SameLinesKept(m.lines, removes + NamesOf(sets));
  }

  lemma PortableIsSafe(f: Field)
    requires Portable(f)
    ensures SafeField(f) && NameSafe(f.name)
  {
  }

  // The single scan does what the separate passes do: the same start line and
  // body, and the same header lines up to order, whenever each addition of the
  // separate passes lands as a line.
  lemma BatchIsOneByOne(m: Message, removes: seq<string>, sets: seq<Field>, adds: seq<Field>)
    returns (batch: Message, stepwise: Message)
    requires BatchInput(m, removes, sets, adds) && DistinctNames(sets) && StepsLand(m, removes, sets, adds)
    ensures Batch(Wire(m), removes, sets, adds) == Wire(batch)
    ensures OneByOne(Wire(m), removes, sets, adds) == Wire(stepwise)
    ensures batch.start == stepwise.start == m.start && batch.body == stepwise.body == m.body
    ensures multiset(batch.lines) == multiset(stepwise.lines)
  {
    hide WellFormed, NameSafe, TextSafe, Portable, Tidy, Wire, Batch, RemoveEach, SetEach, AddEach,
      WithoutAll, LinesOf, LineOf, SafeField, SetsLand, AddsLand, AfterSets, AfterAdds;
    batch := m.(lines := WithoutAll(m.lines, removes + NamesOf(sets)) + LinesOf(sets) + LinesOf(adds));
    BatchLines(m, removes, sets, adds);
    RemoveEachEffect(m, removes);
    var removed := m.(lines := WithoutAll(m.lines, removes));
    forall i | 0 <= i < |sets| ensures SafeField(sets[i]) { PortableIsSafe(sets[i]); }
    forall i | 0 <= i < |adds| ensures SafeField(adds[i]) { PortableIsSafe(adds[i]); }
    SetEachEffect(removed, sets);
    AddEachEffect(AfterSets(removed, sets), adds);
    stepwise := AfterAdds(AfterSets(removed, sets), adds);
    WithoutAllTwice(m.lines, removes, NamesOf(sets));
  }

  // --- A condition on the input that makes every step land ---

  lemma {:induction false} SteadyAddsLand(m: Message, adds: seq<Field>, names: seq<string>)
    requires Steady(m, names) && forall i :: 0 <= i < |adds| ==> CleanLine(LineOf(adds[i]))
    ensures AddsLand(m, adds)
    decreases adds
  {
    hide Steady, CleanLine, LineOf, MarkStartsLine, Insert;
    if adds == [] {
    } else {
      SteadyLands(m, names);
      SteadyAfterInsert(m, PlaceOf(m), LineOf(adds[0]), names);
      SteadyAddsLand(Placed(m, adds[0]), adds[1..], names);
    }
  }

  lemma {:induction false} SteadySetsLand(m: Message, sets: seq<Field>, names: seq<string>)
    requires Steady(m, names)
    requires forall i :: 0 <= i < |sets| ==> CleanLine(LineOf(sets[i])) && sets[i].name in names
    ensures SetsLand(m, sets) && Steady(AfterSets(m, sets), names)
    decreases sets
  {
    hide Steady, CleanLine, LineOf, MarkStartsLine, Insert, Without;
    if sets == [] {
    } else {
      var cleared := Cleared(m, sets[0]);
      SteadyAfterRemove(m, sets[0].name, names);
      SteadyLands(cleared, names);
      SteadyAfterInsert(cleared, PlaceOf(cleared), LineOf(sets[0]), names);
      SteadySetsLand(Placed(cleared, sets[0]), sets[1..], names);
    }
  }

  lemma {:induction false} SteadyAfterRemoves(m: Message, removes: seq<string>, names: seq<string>)
    requires Steady(m, names) && forall i :: 0 <= i < |removes| ==> removes[i] in names
    ensures Steady(m.(lines := WithoutAll(m.lines, removes)), names)
    decreases removes
  {
    hide Steady, Without;
    if removes == [] {
    } else {
      SteadyAfterRemove(m, removes[0], names);
      SteadyAfterRemoves(m.(lines := Without(m.lines, removes[0])), removes[1..], names);
    }
  }

  // Clean text, or clean text up to a Content-Length header that is neither removed
  // nor set, makes every addition of the separate passes land as a line.
  lemma SteadyStepsLand(m: Message, removes: seq<string>, sets: seq<Field>, adds: seq<Field>)
    requires Steady(m, removes + NamesOf(sets))
    requires forall i :: 0 <= i < |sets| ==> CleanLine(LineOf(sets[i]))
    requires forall i :: 0 <= i < |adds| ==> CleanLine(LineOf(adds[i]))
    ensures StepsLand(m, removes, sets, adds)
  {
    hide Steady, CleanLine, LineOf, WithoutAll, SetsLand, AddsLand, AfterSets;
    var names, removed := removes + NamesOf(sets), m.(lines := WithoutAll(m.lines, removes));
    LinesOfAt(sets);
    forall i | 0 <= i < |sets| ensures sets[i].name in names {
      assert names[|removes| + i] == NamesOf(sets)[i];
    }
    SteadyAfterRemoves(m, removes, names);
    SteadySetsLand(removed, sets, names);
    SteadyAddsLand(AfterSets(removed, sets), adds, names);
  }
}
