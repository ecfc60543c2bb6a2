// Header rewriting of headers.mko: the scans over a SIP message that remove, set
// and add header lines one at a time, and the single scan that does a batch.
module Headers {
  import opened Text

  const CONTENT_LENGTH := "content-length:"

  // --- Safe text ---

  predicate TextSafe(value: string) {
    forall i :: 0 <= i < |value| ==> value[i] as int !in {0, 10, 13}
  }

  predicate IsToken(c: char) {
    '0' <= c <= '9' || 'A' <= c <= 'Z' || 'a' <= c <= 'z' || c in "!#$%&'*+-.^_`|~"
  }

  predicate NameSafe(name: string) {
    name != "" && forall i :: 0 <= i < |name| ==> IsToken(name[i])
  }

  method HdrTextSafe(value: string) returns (safe: bool)
    ensures safe <==> TextSafe(value)
  {
    for i := 0 to |value|
      invariant TextSafe(value[..i])
    {
      if value[i] as int == 0 || value[i] as int == 10 || value[i] as int == 13 {
        return false;
      }
    }
    assert value[..|value|] == value;
    return true;
  }

  method HdrNameSafe(name: string) returns (safe: bool)
    ensures safe <==> NameSafe(name)
  {
    if |name| == 0 {
      return false;
    }
    for i := 0 to |name|
      invariant forall j :: 0 <= j < i ==> IsToken(name[j])
    {
      if !IsToken(name[i]) {
        return false;
      }
    }
    return true;
  }

  // --- Searching ---

  predicate OccursAt(s: string, pattern: string, i: nat) {
    i + |pattern| <= |s| && s[i..i + |pattern|] == pattern
  }

  // First occurrence at or after `from`.
  function Find(s: string, pattern: string, from: nat): (at: Option<nat>)
    ensures at.Some? ==> from <= at.value && OccursAt(s, pattern, at.value)
    ensures at.Some? ==> forall i :: from <= i < at.value ==> !OccursAt(s, pattern, i)
    ensures at.None? ==> forall i :: from <= i ==> !OccursAt(s, pattern, i)
    decreases |s| - from
  {
    if from + |pattern| > |s| then None
    else if OccursAt(s, pattern, from) then Some(from)
    else Find(s, pattern, from + 1)
  }

  function HeaderLine(name: string, value: string): string { name + ": " + value }

  // --- Adding one header ---

  // Before the first text that looks like Content-Length, or else at the end of
  // the header section.
  function Added(msg: string, name: string, value: string): string {
    if !NameSafe(name) || !TextSafe(value) then msg
    else
      var mark := Find(Lower(msg), CONTENT_LENGTH, 0);
      if mark.Some? then msg[..mark.value] + HeaderLine(name, value) + "\r\n" + msg[mark.value..]
      else
        var end := Find(msg, "\r\n\r\n", 0);
        if end.Some? then msg[..end.value] + "\r\n" + HeaderLine(name, value) + msg[end.value..]
        else msg
  }

  method FindBlankLine(msg: string) returns (at: Option<nat>)
    ensures at == Find(msg, "\r\n\r\n", 0)
  {
    var i := 0;
    while i + 3 < |msg|
      invariant Find(msg, "\r\n\r\n", 0) == Find(msg, "\r\n\r\n", i)
    {
      assert msg[i..i + 4] == [msg[i], msg[i + 1], msg[i + 2], msg[i + 3]];
      assert OccursAt(msg, "\r\n\r\n", i)
        <==> msg[i] == '\r' && msg[i + 1] == '\n' && msg[i + 2] == '\r' && msg[i + 3] == '\n';
      if msg[i] == '\r' && msg[i + 1] == '\n' && msg[i + 2] == '\r' && msg[i + 3] == '\n' {
        return Some(i);
      }
      i := i + 1;
    }
    return None;
  }

  method HdrAdd(msg: string, name: string, value: string) returns (result: string)
    ensures result == Added(msg, name, value)
  {
    hide NameSafe, TextSafe, Find, Lower;
    var nameSafe := HdrNameSafe(name);
    var textSafe := HdrTextSafe(value);
    if !nameSafe || !textSafe {
      return msg;
    }
    var mark := Find(Lower(msg), CONTENT_LENGTH, 0);
    if mark.Some? {
      assert msg[..mark.value] + name + ": " + value == msg[..mark.value] + HeaderLine(name, value);
      return msg[..mark.value] + name + ": " + value + "\r\n" + msg[mark.value..];
    }
    var end := FindBlankLine(msg);
    if end.Some? {
      assert msg[..end.value] + "\r\n" + name + ": " + value == msg[..end.value] + "\r\n" + HeaderLine(name, value);
      return msg[..end.value] + "\r\n" + name + ": " + value + msg[end.value..];
    }
    return msg;
  }

  // --- Removing one header ---

  // Length of the first line with its line feed, or of all there is.
  function LineLength(s: string): (k: nat)
    ensures k <= |s| && (s != "" ==> k > 0)
  {
    var at := FindChar(s, '\n', 0);
    if at == |s| then |s| else at + 1
  }

  method SkipLine(msg: string, start: nat) returns (next: nat)
    requires start <= |msg|
    ensures next == start + LineLength(msg[start..])
  {
    next := start;
    while next < |msg|
      invariant start <= next <= |msg|
      invariant forall j :: start <= j < next ==> msg[j] != '\n'
    {
      if msg[next] == '\n' {
        FindCharIs(msg[start..], '\n', 0, next - start);
        return next + 1;
      }
      next := next + 1;
    }
    FindCharIs(msg[start..], '\n', 0, next - start);
  }

  // The text begins with a header of this name, in any case of letters.
  predicate BeginsWithHeader(rest: string, name: string) {
    |name| + 1 < |rest| && Lower(rest[..|name|]) == Lower(name) && rest[|name|] == ':'
  }

  function RemovedFrom(rest: string, name: string): string {
    if rest == "" || rest[0] == '\r' then rest
    else
      var k := LineLength(rest);
      (if BeginsWithHeader(rest, name) then "" else rest[..k]) + RemovedFrom(rest[k..], name)
  }

  function Removed(msg: string, name: string): string {
    msg[..LineLength(msg)] + RemovedFrom(msg[LineLength(msg)..], name)
  }

  method LineMatches(msg: string, i: nat, name: string) returns (matches: bool)
    requires i <= |msg|
    ensures matches <==> BeginsWithHeader(msg[i..], name)
  {
    var rest := msg[i..];
    if i + |name| + 1 >= |msg| {
      return false;
    }
    for j := 0 to |name|
      invariant forall l :: 0 <= l < j ==> LowerChar(rest[l]) == LowerChar(name[l])
    {
      if LowerChar(msg[i + j]) != LowerChar(name[j]) {
        assert Lower(rest[..|name|])[j] != Lower(name)[j];
        return false;
      }
    }
    assert Lower(rest[..|name|]) == Lower(name);
    return msg[i + |name|] == ':';
  }

  lemma Reassociate(a: string, b: string, c: string)
    ensures a + (b + c) == a + b + c
  {
  }

  lemma RemovedStep(msg: string, i: nat, next: nat, name: string)
    requires i < |msg| && msg[i] != '\r' && next == i + LineLength(msg[i..])
    ensures RemovedFrom(msg[i..], name)
         == (if BeginsWithHeader(msg[i..], name) then "" else msg[i..next]) + RemovedFrom(msg[next..], name)
  {
    hide LineLength, BeginsWithHeader;
    assert msg[i..][next - i..] == msg[next..] && msg[i..][..next - i] == msg[i..next];
  }

  lemma RemovedAtEnd(rest: string, name: string)
    requires rest == "" || rest[0] == '\r'
    ensures RemovedFrom(rest, name) == rest
  {
  }

  method HdrRemove(msg: string, name: string) returns (result: string)
    ensures result == Removed(msg, name)
  {
    hide RemovedFrom, BeginsWithHeader, LineLength;
    var n, removed := |msg|, false;
    assert msg[0..] == msg;
    var i := SkipLine(msg, 0);
    var b := msg[..i];
    while i < n
      invariant 0 <= i <= n
      invariant b + RemovedFrom(msg[i..], name) == Removed(msg, name)
      invariant !removed ==> b == msg[..i]
    {
      if msg[i] == '\r' {
        break;
      }
      var lineStart := i;
      var matches := LineMatches(msg, i, name);
      i := SkipLine(msg, i);
      RemovedStep(msg, lineStart, i, name);
      if matches {
        removed := true;
        assert "" + RemovedFrom(msg[i..], name) == RemovedFrom(msg[i..], name);
      } else {
        assert msg[..i] == msg[..lineStart] + msg[lineStart..i];
        Reassociate(b, msg[lineStart..i], RemovedFrom(msg[i..], name));
        b := b + msg[lineStart..i];
      }
    }
    RemovedAtEnd(msg[i..], name);
    if !removed {
      assert msg == msg[..i] + msg[i..];
      return msg;
    }
    if i < n {
      b := b + msg[i..];
    }
    return b;
  }

  // --- Setting one header ---

  function WithSet(msg: string, name: string, value: string): string {
    if !NameSafe(name) || !TextSafe(value) then msg else Added(Removed(msg, name), name, value)
  }

  method HdrSet(msg: string, name: string, value: string) returns (result: string)
    ensures result == WithSet(msg, name, value)
  {
    var nameSafe := HdrNameSafe(name);
    var textSafe := HdrTextSafe(value);
    if !nameSafe || !textSafe {
      return msg;
    }
    result := HdrRemove(msg, name);
    result := HdrAdd(result, name, value);
  }

  // --- Batch rewriting ---

  // The trimmed entries of a list that are not empty.
  function Entries(parts: seq<string>): seq<string> {
    if parts == [] then []
    else (if Trim(parts[0]) == "" then [] else [Trim(parts[0])]) + Entries(parts[1..])
  }

  function LowerAll(names: seq<string>): seq<string> {
    if names == [] then [] else [Lower(names[0])] + LowerAll(names[1..])
  }

  predicate IsPair(pair: string) {
    var colon := Find(pair, ": ", 0);
    colon.Some? && colon.value > 0
  }

  // The entries that read "Name: value".
  function Pairs(entries: seq<string>): seq<string> {
    if entries == [] then []
    else (if IsPair(entries[0]) then [entries[0]] else []) + Pairs(entries[1..])
  }

  function PairNames(entries: seq<string>): seq<string> {
    if entries == [] then []
    else
      (if IsPair(entries[0]) then [Lower(entries[0][..Find(entries[0], ": ", 0).value])] else [])
      + PairNames(entries[1..])
  }

  // Position of the colon that ends the header name, or None within the line.
  function ColonOf(rest: string): (at: Option<nat>)
    ensures at.Some? ==> at.value < |rest| && rest[at.value] == ':'
    ensures at.Some? ==> forall i :: 0 <= i < at.value ==> rest[i] !in ":\r\n"
  {
    if rest == "" || rest[0] == '\r' || rest[0] == '\n' then None
    else if rest[0] == ':' then Some(0)
    else
      var later := ColonOf(rest[1..]);
      if later.None? then None else Some(later.value + 1)
  }

  predicate Dropped(rest: string, drops: seq<string>) {
    var colon := ColonOf(rest);
    colon.Some? && colon.value > 0 && Lower(Trim(rest[..colon.value])) in drops
  }

  function Kept(rest: string, drops: seq<string>): string {
    if rest == "" || rest[0] == '\r' then ""
    else
      var k := LineLength(rest);
      (if Dropped(rest, drops) then "" else rest[..k]) + Kept(rest[k..], drops)
  }

  // From the blank line on.
  function Tail(rest: string): string {
    if rest == "" || rest[0] == '\r' then rest else Tail(rest[LineLength(rest)..])
  }

  function LinesText(lines: seq<string>): string {
    if lines == [] then "" else lines[0] + "\r\n" + LinesText(lines[1..])
  }

  function BatchRewritten(msg: string, removes: string, sets: string, adds: string): string {
    var setEntries := Entries(Split(sets, '|'));
    var drops := LowerAll(Entries(Split(removes, ','))) + PairNames(setEntries);
    var k := LineLength(msg);
    msg[..k] + Kept(msg[k..], drops)
    + LinesText(Pairs(setEntries)) + LinesText(Entries(Split(adds, '|'))) + Tail(msg[k..])
  }

  lemma EntriesStep(parts: seq<string>, i: nat)
    requires i < |parts|
    ensures Entries(parts[i..])
         == if Trim(parts[i]) == "" then Entries(parts[i + 1..]) else [Trim(parts[i])] + Entries(parts[i + 1..])
  {
    hide Trim;
    assert parts[i..][1..] == parts[i + 1..];
    assert [] + Entries(parts[i + 1..]) == Entries(parts[i + 1..]);
  }

  lemma EntriesNone(parts: seq<string>)
    requires parts == []
    ensures Entries(parts) == []
  {
  }

  lemma PairsStep(pair: string, rest: seq<string>)
    ensures Pairs([pair] + rest) == if IsPair(pair) then [pair] + Pairs(rest) else Pairs(rest)
    ensures PairNames([pair] + rest)
         == if IsPair(pair) then [Lower(pair[..Find(pair, ": ", 0).value])] + PairNames(rest) else PairNames(rest)
    ensures IsPair(pair) <==> Find(pair, ": ", 0).Some? && Find(pair, ": ", 0).value > 0
  {
    hide Find;
    assert ([pair] + rest)[1..] == rest;
    assert [] + Pairs(rest) == Pairs(rest) && [] + PairNames(rest) == PairNames(rest);
  }

  method LowerNames(removes: seq<string>) returns (names: seq<string>)
    ensures names == LowerAll(Entries(removes))
  {
    hide Entries, Trim;
    names := [];
    assert removes[0..] == removes;
    for i := 0 to |removes|
      invariant names + LowerAll(Entries(removes[i..])) == LowerAll(Entries(removes))
    {
      var r := Trim(removes[i]);
      EntriesStep(removes, i);
      if |r| > 0 {
        assert ([r] + Entries(removes[i + 1..]))[1..] == Entries(removes[i + 1..]);
        names := names + [Lower(r)];
      }
    }
    EntriesNone(removes[|removes|..]);
  }

  method SetPairs(sets: seq<string>) returns (names: seq<string>, pairs: seq<string>)
    ensures names == PairNames(Entries(sets)) && pairs == Pairs(Entries(sets))
  {
    hide Entries, Trim, IsPair, Find;
    names, pairs := [], [];
    assert sets[0..] == sets;
    for i := 0 to |sets|
      invariant names + PairNames(Entries(sets[i..])) == PairNames(Entries(sets))
      invariant pairs + Pairs(Entries(sets[i..])) == Pairs(Entries(sets))
    {
      var pair := Trim(sets[i]);
      EntriesStep(sets, i);
      if |pair| > 0 {
        PairsStep(pair, Entries(sets[i + 1..]));
        var colon := Find(pair, ": ", 0);
        if colon.Some? && colon.value > 0 {
          names := names + [Lower(pair[..colon.value])];
          pairs := pairs + [pair];
        }
      }
    }
    EntriesNone(sets[|sets|..]);
  }

  // Scan one line for the colon that ends its name.
  method FindColon(msg: string, i: nat) returns (colon: Option<nat>)
    requires i <= |msg|
    ensures colon == ColonOf(msg[i..])
  {
    colon := None;
    var scan := i;
    while scan < |msg| && msg[scan] != '\n' && msg[scan] != '\r'
      invariant i <= scan <= |msg|
      invariant colon.None? ==> ColonOf(msg[i..]) == Shifted(ColonOf(msg[scan..]), scan - i)
      invariant colon.Some? ==> colon == ColonOf(msg[i..])
    {
      assert msg[scan..][1..] == msg[scan + 1..];
      if colon.None? && msg[scan] == ':' {
        colon := Some(scan - i);
      }
      scan := scan + 1;
    }
  }

  function Shifted(at: Option<nat>, offset: nat): Option<nat> {
    if at.None? then None else Some(at.value + offset)
  }

  method ShouldDrop(msg: string, i: nat, drops: seq<string>) returns (drop: bool)
    requires i <= |msg|
    ensures drop <==> Dropped(msg[i..], drops)
  {
    var colon := FindColon(msg, i);
    if colon.None? || colon.value == 0 {
      return false;
    }
    assert msg[i..][..colon.value] == msg[i..i + colon.value];
    var name := Lower(Trim(msg[i..i + colon.value]));
    for d := 0 to |drops|
      invariant name !in drops[..d]
    {
      if name == drops[d] {
        return true;
      }
    }
    assert drops[..|drops|] == drops;
    return false;
  }

  lemma KeptStep(msg: string, i: nat, next: nat, drops: seq<string>)
    requires i < |msg| && msg[i] != '\r' && next == i + LineLength(msg[i..])
    ensures Kept(msg[i..], drops)
         == (if Dropped(msg[i..], drops) then "" else msg[i..next]) + Kept(msg[next..], drops)
    ensures Tail(msg[i..]) == Tail(msg[next..])
  {
    hide LineLength, Dropped;
    assert msg[i..][next - i..] == msg[next..] && msg[i..][..next - i] == msg[i..next];
  }

  lemma KeptAtEnd(rest: string, drops: seq<string>)
    requires rest == "" || rest[0] == '\r'
    ensures Kept(rest, drops) == "" && Tail(rest) == rest
  {
  }

  method HdrBatchRewrite(msg: string, removes: string, sets: string, adds: string) returns (b: string)
    ensures b == BatchRewritten(msg, removes, sets, adds)
  {
    hide Split, Dropped, Entries, Pairs, PairNames, LowerAll, LineLength, Kept, Tail, LinesText;
    var removeNames := LowerNames(Split(removes, ','));
    var setNames, setLines := SetPairs(Split(sets, '|'));
    var drops := removeNames + setNames;
    var addParts := Split(adds, '|');
    assert msg[0..] == msg;
    var i := SkipLine(msg, 0);
    ghost var k := i;
    b := msg[..i];
    while i < |msg|
      invariant k <= i <= |msg|
      invariant b + Kept(msg[i..], drops) == msg[..k] + Kept(msg[k..], drops)
      invariant Tail(msg[i..]) == Tail(msg[k..])
    {
      if msg[i] == '\r' {
        break;
      }
      var lineStart := i;
      var drop := ShouldDrop(msg, i, drops);
      i := SkipLine(msg, i);
      KeptStep(msg, lineStart, i, drops);
      if drop {
        assert "" + Kept(msg[i..], drops) == Kept(msg[i..], drops);
      } else {
        Reassociate(b, msg[lineStart..i], Kept(msg[i..], drops));
        b := b + msg[lineStart..i];
      }
    }
    KeptAtEnd(msg[i..], drops);
    b := WriteLines(b, setLines);
    b := WriteEntries(b, addParts);
    if i < |msg| {
      b := b + msg[i..];
    }
  }

  method WriteLines(before: string, lines: seq<string>) returns (b: string)
    ensures b == before + LinesText(lines)
  {
    b := before;
    for i := 0 to |lines|
      invariant b + LinesText(lines[i..]) == before + LinesText(lines)
    {
      assert lines[i..][1..] == lines[i + 1..];
      b := b + lines[i];
      b := b + "\r\n";
    }
  }

  method WriteEntries(before: string, parts: seq<string>) returns (b: string)
    ensures b == before + LinesText(Entries(parts))
  {
    hide Entries, Trim;
    b := before;
    assert parts[0..] == parts;
    for i := 0 to |parts|
      invariant b + LinesText(Entries(parts[i..])) == before + LinesText(Entries(parts))
    {
      var entry := Trim(parts[i]);
      EntriesStep(parts, i);
      if |entry| > 0 {
        assert ([entry] + Entries(parts[i + 1..]))[1..] == Entries(parts[i + 1..]);
        b := b + entry;
        b := b + "\r\n";
      }
    }
    EntriesNone(parts[|parts|..]);
  }
}
