// The two profile documents of the lab HSS, read back with a reader of tags: what a
// document shows is the subscriber's own identity, lists and profile.
module HssDocuments {
  import opened Hss
  import opened HssApplication
  import opened Text

  // --- A reader of tags ---

  function IndexOf(b: bytes, c: byte): (at: nat)
    ensures at <= |b|
    ensures at < |b| ==> b[at] == c
    ensures forall i :: 0 <= i < at ==> b[i] != c
  {
    if b == [] || b[0] == c then 0 else 1 + IndexOf(b[1..], c)
  }

  // A tag and the text between it and the next one.
  datatype Mark = Mark(tag: bytes, text: bytes)

  // "<" is octet 60 and ">" octet 62.
  function Marks(b: bytes): seq<Mark>
    decreases |b|
  {
    var open := IndexOf(b, 60);
    if open == |b| then [] else MarksFrom(b[open + 1..])
  }

  function MarksFrom(rest: bytes): seq<Mark>
    decreases |rest|
  {
    var close := IndexOf(rest, 62);
    if close == |rest| then []
    else
      var after := rest[close + 1..];
      [Mark(rest[..close], after[..IndexOf(after, 60)])] + Marks(after)
  }

  function Tag(tag: bytes): bytes { [60] + tag + [62] }

  lemma IndexIs(b: bytes, c: byte, at: nat)
    requires at <= |b| && (at < |b| ==> b[at] == c) && forall i :: 0 <= i < at ==> b[i] != c
    ensures IndexOf(b, c) == at
  {
  }

  lemma MarksSkip(text: bytes, rest: bytes)
    requires 60 !in text
    ensures Marks(text + rest) == Marks(rest)
  {
    hide Marks, MarksFrom;
    var open := IndexOf(rest, 60);
    var b := text + rest;
    IndexIs(b, 60, |text| + open);
    if open < |rest| {
      assert b[|text| + open + 1..] == rest[open + 1..];
      MarksStep(b, |text| + open);
      MarksStep(rest, open);
    } else {
      MarksEnd(b);
      MarksEnd(rest);
    }
  }

  lemma MarksStep(b: bytes, open: nat)
    requires open < |b| && IndexOf(b, 60) == open
    ensures Marks(b) == MarksFrom(b[open + 1..])
  {
    hide MarksFrom, IndexOf;
  }

  lemma MarksFromStep(b: bytes, close: nat)
    requires close < |b| && IndexOf(b, 62) == close
    ensures MarksFrom(b) == [Mark(b[..close], b[close + 1..][..IndexOf(b[close + 1..], 60)])] + Marks(b[close + 1..])
  {
    hide Marks, IndexOf;
  }

  lemma MarksEnd(b: bytes)
    requires IndexOf(b, 60) == |b|
    ensures Marks(b) == []
  {
  }

  lemma MarksTag(tag: bytes, rest: bytes)
    requires 62 !in tag
    ensures Marks(Tag(tag) + rest) == [Mark(tag, rest[..IndexOf(rest, 60)])] + Marks(rest)
  {
    hide Marks, MarksFrom, IndexOf;
    var b := Tag(tag) + rest;
    IndexIs(b, 60, 0);
    MarksStep(b, 0);
    var c := tag + ([62] + rest);
    assert b[1..] == c;
    IndexIs(c, 62, |tag|);
    assert c[..|tag|] == tag && c[|tag| + 1..] == rest;
    MarksFromStep(c, |tag|);
  }

  // A tag, a text without tags, and what follows from the next tag on.
  lemma MarksElement(tag: bytes, text: bytes, next: bytes, rest: bytes)
    requires 62 !in tag && 62 !in next && 60 !in text
    ensures Marks(Tag(tag) + text + Tag(next) + rest)
      == [Mark(tag, text), Mark(next, rest[..IndexOf(rest, 60)])] + Marks(rest)
  {
    var more := Tag(next) + rest;
    assert Tag(tag) + text + Tag(next) + rest == Tag(tag) + (text + more);
    MarksTag(tag, text + more);
    IndexIs(text + more, 60, |text|);
    assert (text + more)[..|text|] == text;
    MarksSkip(text, more);
    MarksTag(next, rest);
  }

  // The texts of the tags of one name.
  function Texts(marks: seq<Mark>, tag: bytes): seq<bytes> {
    if marks == [] then []
    else (if marks[0].tag == tag then [marks[0].text] else []) + Texts(marks[1..], tag)
  }

  lemma TextsOfTwo(a: Mark, b: Mark, rest: seq<Mark>, tag: bytes)
    ensures Texts([a, b] + rest, tag)
      == (if a.tag == tag then [a.text] else []) + (if b.tag == tag then [b.text] else []) + Texts(rest, tag)
  {
    assert ([a, b] + rest)[1..] == [b] + rest && ([b] + rest)[1..] == rest;
  }

  lemma TextsOfOne(a: Mark, rest: seq<Mark>, tag: bytes)
    ensures Texts([a] + rest, tag) == (if a.tag == tag then [a.text] else []) + Texts(rest, tag)
  {
    assert ([a] + rest)[1..] == rest;
  }

  // --- The Sh document ---

  // The items that follow a key's tag.
  function Items(marks: seq<Mark>): seq<bytes> {
    if marks == [] then []
    else if marks[0].tag == Ascii("item") then [marks[0].text] + Items(marks[1..])
    else if marks[0].tag == Ascii("/item") then Items(marks[1..])
    else []
  }

  function ReadProfile(marks: seq<Mark>): Profile {
    if marks == [] then []
    else if marks[0].tag == Ascii("associated_uris") then
      [(AssociatedUris, Items(marks[1..]))] + ReadProfile(marks[1..])
    else if marks[0].tag == Ascii("initial_filter_criteria") then
      [(InitialFilterCriteria, Items(marks[1..]))] + ReadProfile(marks[1..])
    else ReadProfile(marks[1..])
  }

  // No value holds a "<" of its own.
  predicate NoTags(values: seq<bytes>) { forall i :: 0 <= i < |values| ==> 60 !in values[i] }

  predicate Tagless(p: Profile) { forall i :: 0 <= i < |p| ==> NoTags(p[i].1) }

  lemma ShTags()
    ensures Ascii("<item>") == Tag(Ascii("item")) && Ascii("</item>") == Tag(Ascii("/item"))
    ensures 62 !in Ascii("item") && 62 !in Ascii("/item") && Ascii("item") != Ascii("/item")
    ensures Ascii("/item")[0] == 47 && Ascii("item")[0] == 105 && Ascii("item")[1] == 116
  {
  }

  lemma KeyTags(key: ProfileKey)
    ensures Ascii("<") + KeyName(key) + Ascii(">") == Tag(KeyName(key)) && 62 !in KeyName(key)
    ensures Ascii("</") + KeyName(key) + Ascii(">") == Tag([47] + KeyName(key))
    ensures KeyName(key) == if key.AssociatedUris? then Ascii("associated_uris") else Ascii("initial_filter_criteria")
    ensures KeyName(key)[0] == (if key.AssociatedUris? then 97 else 105) && KeyName(key)[1] == (if key.AssociatedUris? then 115 else 110)
  {
    if key.AssociatedUris? { UrisName(); } else { CriteriaName(); }
    Brackets();
    hide Ascii;
  }

  lemma Brackets()
    ensures Ascii("<") == [60] && Ascii(">") == [62] && Ascii("</") == [60, 47]
  {
  }

  lemma UrisName()
    ensures Ascii("associated_uris")[0] == 97 && Ascii("associated_uris")[1] == 115 && 62 !in Ascii("associated_uris")
  {
  }

  lemma CriteriaName()
    ensures Ascii("initial_filter_criteria")[0] == 105 && Ascii("initial_filter_criteria")[1] == 110
    ensures 62 !in Ascii("initial_filter_criteria")
  {
  }

  lemma OtherTags()
    ensures Ascii("associated_uris")[0] == 97 && Ascii("initial_filter_criteria")[0] == 105
    ensures Ascii("initial_filter_criteria")[1] == 110
  {
  }

  function ItemMarks(values: seq<bytes>, after: bytes): seq<Mark> {
    if values == [] then []
    else
      var rest := Elements(Ascii("<item>"), values[1..], Ascii("</item>")) + after;
      [Mark(Ascii("item"), values[0]), Mark(Ascii("/item"), rest[..IndexOf(rest, 60)])] + ItemMarks(values[1..], after)
  }

  lemma {:induction false} MarksOfItems(values: seq<bytes>, after: bytes)
    requires NoTags(values)
    ensures Marks(Elements(Ascii("<item>"), values, Ascii("</item>")) + after) == ItemMarks(values, after) + Marks(after)
  {
    ShTags();
    hide Marks, Ascii, Tag;
    var open, close := Ascii("<item>"), Ascii("</item>");
    if values == [] {
      assert Elements(open, values, close) + after == after;
    } else {
      var rest := Elements(open, values[1..], close) + after;
      assert Elements(open, values, close) + after == open + values[0] + close + rest;
      MarksElement(Ascii("item"), values[0], Ascii("/item"), rest);
      MarksOfItems(values[1..], after);
    }
  }

  // Items stop at the first tag that is none of theirs.
  lemma {:induction false} ItemsRead(values: seq<bytes>, after: bytes, more: seq<Mark>)
    requires more != [] && more[0].tag != Ascii("item") && more[0].tag != Ascii("/item")
    ensures Items(ItemMarks(values, after) + more) == values
    ensures ReadProfile(ItemMarks(values, after) + more) == ReadProfile(more)
  {
    ShTags();
    OtherTags();
    hide Ascii, IndexOf, Elements;
    if values == [] {
      assert ItemMarks(values, after) + more == more;
    } else {
      var all, tail := ItemMarks(values, after) + more, ItemMarks(values[1..], after) + more;
      assert all[1..][1..] == tail;
      ItemsRead(values[1..], after, more);
    }
  }

  // One key: its tag, its items, its closing tag, and the rest.
  function KeyText(tag: bytes, values: seq<bytes>, rest: bytes): bytes {
    Tag(tag) + (Elements(Ascii("<item>"), values, Ascii("</item>")) + (Tag([47] + tag) + rest))
  }

  lemma EntriesSplit(p: Profile, after: bytes)
    requires p != []
    ensures ShEntries(p) + after == KeyText(KeyName(p[0].0), p[0].1, ShEntries(p[1..]) + after)
  {
    hide Ascii, KeyName, Elements, Tag, ShEntries;
    KeyTags(p[0].0);
    var name, items := KeyName(p[0].0), Elements(Ascii("<item>"), p[0].1, Ascii("</item>"));
    EntriesUnfold(p);
    SevenAssociate(Ascii("<"), name, Ascii(">"), items, Ascii("</"), ShEntries(p[1..]));
    FiveAssociate(Tag(name), items, Tag([47] + name), ShEntries(p[1..]), after);
  }

  lemma SevenAssociate(a: bytes, b: bytes, c: bytes, d: bytes, e: bytes, f: bytes)
    ensures a + b + c + d + e + b + c + f == a + b + c + d + (e + b + c) + f
  {
  }

  lemma EntriesUnfold(p: Profile)
    requires p != []
    ensures var name, items := KeyName(p[0].0), Elements(Ascii("<item>"), p[0].1, Ascii("</item>"));
      ShEntries(p) == Ascii("<") + name + Ascii(">") + items + Ascii("</") + name + Ascii(">") + ShEntries(p[1..])
  {
    hide Ascii, KeyName, Elements;
  }

  lemma FiveAssociate(a: bytes, b: bytes, c: bytes, d: bytes, e: bytes)
    ensures a + b + c + d + e == a + (b + (c + (d + e)))
  {
  }

  lemma KeyRead(tag: bytes, values: seq<bytes>, rest: bytes)
    requires 62 !in tag && NoTags(values) && tag != [] && tag[0] != 47
    requires [47] + tag != Ascii("item") && [47] + tag != Ascii("/item")
    requires [47] + tag != Ascii("associated_uris") && [47] + tag != Ascii("initial_filter_criteria")
    ensures exists head: bytes, tail: seq<Mark> ::
      && Marks(KeyText(tag, values, rest)) == [Mark(tag, head)] + tail
      && Items(tail) == values && ReadProfile(tail) == ReadProfile(Marks(rest))
  {
    hide Marks, MarksFrom, Ascii, Tag, Elements, ItemMarks, IndexOf, Items, ReadProfile;
    var closing := Tag([47] + tag) + rest;
    var items := Elements(Ascii("<item>"), values, Ascii("</item>")) + closing;
    MarksTag(tag, items);
    MarksOfItems(values, closing);
    MarksTag([47] + tag, rest);
    var more := [Mark([47] + tag, rest[..IndexOf(rest, 60)])] + Marks(rest);
    ItemsRead(values, closing, more);
    SkipMark([47] + tag, rest);
    var head, tail := items[..IndexOf(items, 60)], ItemMarks(values, closing) + more;
    assert Marks(KeyText(tag, values, rest)) == [Mark(tag, head)] + tail;
  }

  lemma OneEntry(key: ProfileKey, head: bytes, tail: seq<Mark>)
    ensures ReadProfile([Mark(KeyName(key), head)] + tail) == [(key, Items(tail))] + ReadProfile(tail)
  {
    KeyTags(key);
    OtherTags();
    hide Ascii, Items;
    assert ([Mark(KeyName(key), head)] + tail)[1..] == tail;
  }

  lemma ClosingTag(key: ProfileKey)
    ensures var tag := [47] + KeyName(key);
      && tag != Ascii("item") && tag != Ascii("/item")
      && tag != Ascii("associated_uris") && tag != Ascii("initial_filter_criteria")
    ensures KeyName(key) != [] && KeyName(key)[0] != 47 && 62 !in KeyName(key)
  {
    KeyTags(key);
    ShTags();
    OtherTags();
    hide Ascii, KeyName;
    assert ([47] + KeyName(key))[0] == 47 && ([47] + KeyName(key))[1] == KeyName(key)[0];
    assert Ascii("/item")[1] == 105 && Ascii("/item")[2] == 116 by { SlashItem(); }
    assert ([47] + KeyName(key))[2] == KeyName(key)[1];
  }

  lemma TaglessRest(p: Profile)
    requires Tagless(p) && p != []
    ensures Tagless(p[1..]) && NoTags(p[0].1)
  {
  }

  lemma FrontJoined(p: Profile, more: Profile)
    requires p != []
    ensures [p[0]] + (p[1..] + more) == p + more
  {
  }

  lemma SlashItem()
    ensures Ascii("/item")[1] == 105 && Ascii("/item")[2] == 116
  {
  }

  lemma {:induction false} EntriesRead(p: Profile, after: bytes)
    requires Tagless(p)
    ensures ReadProfile(Marks(ShEntries(p) + after)) == p + ReadProfile(Marks(after))
  {
    if p == [] {
      assert ShEntries(p) + after == after;
    } else {
      hide *;
      TaglessRest(p);
      var tag, values, rest := KeyName(p[0].0), p[0].1, ShEntries(p[1..]) + after;
      EntriesSplit(p, after);
      ClosingTag(p[0].0);
      EntriesRead(p[1..], after);
      KeyRead(tag, values, rest);
      var head: bytes, tail: seq<Mark> :|
        && Marks(KeyText(tag, values, rest)) == [Mark(tag, head)] + tail
        && Items(tail) == values && ReadProfile(tail) == ReadProfile(Marks(rest));
      OneEntry(p[0].0, head, tail);
      assert p[0] == (p[0].0, values);
      FrontJoined(p, ReadProfile(Marks(after)));
    }
  }

  const XML_TAG := "?xml version=\"1.0\""
  const XML_REST := " encoding=\"UTF-8\"?"

  lemma XmlHeadTag()
    ensures XmlHead() == Tag(Ascii(XML_TAG) + Ascii(XML_REST)) && 62 !in Ascii(XML_TAG) + Ascii(XML_REST)
    ensures |Ascii(XML_TAG)| > 0 && (Ascii(XML_TAG) + Ascii(XML_REST))[0] == 63
  {
    XmlStart();
    XmlEnd();
    hide Ascii;
  }

  lemma XmlStart()
    ensures Ascii("<?xml version=\"1.0\"") == [60] + Ascii(XML_TAG) && 62 !in Ascii(XML_TAG)
    ensures |Ascii(XML_TAG)| > 0 && Ascii(XML_TAG)[0] == 63
  {
  }

  lemma XmlEnd()
    ensures Ascii(" encoding=\"UTF-8\"?>") == Ascii(XML_REST) + [62] && 62 !in Ascii(XML_REST)
  {
  }

  lemma ShFrame()
    ensures Ascii("<Sh-Data>") == Tag(Ascii("Sh-Data")) && 62 !in Ascii("Sh-Data")
    ensures Ascii("</Sh-Data>") == Tag(Ascii("/Sh-Data")) + [] && 62 !in Ascii("/Sh-Data")
    ensures Ascii("Sh-Data")[0] == 83 && Ascii("/Sh-Data")[0] == 47
  {
    hide Ascii, Tag;
    TagText("Sh-Data");
    TagText("/Sh-Data");
    assert "<Sh-Data>" == "<" + "Sh-Data" + ">" && "</Sh-Data>" == "<" + "/Sh-Data" + ">";
    assert Tag(Ascii("/Sh-Data")) + [] == Tag(Ascii("/Sh-Data"));
  }

  lemma TagText(tag: string)
    requires tag != "" && forall i :: 0 <= i < |tag| ==> tag[i] < 128 as char && tag[i] != '>'
    ensures Ascii("<" + tag + ">") == Tag(Ascii(tag)) && 62 !in Ascii(tag) && Ascii(tag)[0] == tag[0] as int
  {
    AsciiTag(tag);
    AsciiChars(tag);
  }

  lemma AsciiTag(tag: string)
    ensures Ascii("<" + tag + ">") == Tag(Ascii(tag))
  {
  }

  lemma AsciiChars(text: string)
    requires forall i :: 0 <= i < |text| ==> text[i] < 128 as char
    ensures 62 in Ascii(text) ==> '>' in text
    ensures 60 in Ascii(text) ==> '<' in text
    ensures text != "" ==> Ascii(text)[0] == text[0] as int
  {
    if 62 in Ascii(text) {
      var i :| 0 <= i < |text| && Ascii(text)[i] == 62;
      assert text[i] == '>';
    }
    if 60 in Ascii(text) {
      var i :| 0 <= i < |text| && Ascii(text)[i] == 60;
      assert text[i] == '<';
    }
  }

  // The document of a profile reads back as the profile.
  lemma ShReadsBack(p: Profile)
    requires Tagless(p)
    ensures ReadProfile(Marks(ShDocument(p))) == p
  {
    ShFrame();
    XmlHeadTag();
    OtherTags();
    var xml := Ascii(XML_TAG) + Ascii(XML_REST);
    var closing := Ascii("</Sh-Data>");
    var body := ShEntries(p) + closing;
    hide Marks, Ascii, Tag, ShEntries, IndexOf, XmlHead, XML_TAG, XML_REST;
    assert ShDocument(p) == Tag(xml) + (Tag(Ascii("Sh-Data")) + body);
    SkipMark(xml, Tag(Ascii("Sh-Data")) + body);
    SkipMark(Ascii("Sh-Data"), body);
    EntriesRead(p, closing);
    SkipMark(Ascii("/Sh-Data"), []);
    NoMarks();
    assert ReadProfile([]) == [];
    assert p + [] == p;
  }

  lemma NoMarks()
    ensures Marks([]) == []
  {
  }

  lemma SkipMark(tag: bytes, rest: bytes)
    requires 62 !in tag && tag != Ascii("associated_uris") && tag != Ascii("initial_filter_criteria")
    ensures ReadProfile(Marks(Tag(tag) + rest)) == ReadProfile(Marks(rest))
  {
    hide Marks, Ascii, IndexOf, Tag;
    MarksTag(tag, rest);
    var all := [Mark(tag, rest[..IndexOf(rest, 60)])] + Marks(rest);
    assert all[1..] == Marks(rest);
  }

  // --- A value with a tag of its own ---

  // The item that holds a tag is read only up to it.
  lemma {:induction false} BadItemRead(values: seq<bytes>, after: bytes)
    requires !NoTags(values)
    ensures Items(Marks(Elements(Ascii("<item>"), values, Ascii("</item>")) + after)) != values
  {
    ShTags();
    hide Marks, MarksFrom, Ascii, Tag, NoTags;
    var open, close := Ascii("<item>"), Ascii("</item>");
    FirstOrRest(values);
    var v := values[0];
    var rest := Elements(open, values[1..], close) + after;
    assert Elements(open, values, close) + after == open + v + close + rest;
    if 60 in v {
      var at := IndexOf(v, 60);
      assert open + v + close + rest == Tag(Ascii("item")) + (v + (close + rest));
      MarksTag(Ascii("item"), v + (close + rest));
      IndexIs(v + (close + rest), 60, at);
      assert (v + (close + rest))[..at] == v[..at];
      var tail := Marks(v + (close + rest));
      assert ([Mark(Ascii("item"), v[..at])] + tail)[1..] == tail;
      assert Items([Mark(Ascii("item"), v[..at])] + tail)[0] == v[..at];
    } else {
      MarksElement(Ascii("item"), v, Ascii("/item"), rest);
      BadItemRead(values[1..], after);
      var marks := [Mark(Ascii("item"), v), Mark(Ascii("/item"), rest[..IndexOf(rest, 60)])] + Marks(rest);
      assert marks[1..][1..] == Marks(rest);
      assert Items(marks) == [v] + Items(Marks(rest));
    }
  }

  lemma FirstOrRest(values: seq<bytes>)
    requires !NoTags(values)
    ensures values != [] && (60 in values[0] || !NoTags(values[1..]))
  {
    var i :| 0 <= i < |values| && 60 in values[i];
    if i > 0 { assert values[1..][i - 1] == values[i]; }
  }

  lemma BadKeyRead(key: ProfileKey, values: seq<bytes>, rest: bytes)
    requires !NoTags(values)
    ensures ReadProfile(Marks(KeyText(KeyName(key), values, rest))) != []
    ensures ReadProfile(Marks(KeyText(KeyName(key), values, rest)))[0] != (key, values)
  {
    hide Marks, MarksFrom, Ascii, Tag, Elements, Items, KeyName, ReadProfile, NoTags, IndexOf;
    ClosingTag(key);
    var closing := Tag([47] + KeyName(key)) + rest;
    var items := Elements(Ascii("<item>"), values, Ascii("</item>")) + closing;
    MarksTag(KeyName(key), items);
    BadItemRead(values, closing);
    OneEntry(key, items[..IndexOf(items, 60)], Marks(items));
  }

  // What is read does not start with the profile.
  lemma {:induction false} BadEntriesRead(p: Profile, after: bytes)
    requires !Tagless(p)
    ensures !(p <= ReadProfile(Marks(ShEntries(p) + after)))
  {
    BadListSomewhere(p);
    EntriesSplit(p, after);
    var key, values, rest := p[0].0, p[0].1, ShEntries(p[1..]) + after;
    assert p[0] == (key, values);
    if NoTags(values) {
      BadEntriesRead(p[1..], after);
      ClosingTag(key);
      hide *;
      KeyRead(KeyName(key), values, rest);
      var head: bytes, tail: seq<Mark> :|
        && Marks(KeyText(KeyName(key), values, rest)) == [Mark(KeyName(key), head)] + tail
        && Items(tail) == values && ReadProfile(tail) == ReadProfile(Marks(rest));
      OneEntry(key, head, tail);
      NotInFront(p, (key, values), ReadProfile(Marks(rest)));
    } else {
      hide *;
      BadKeyRead(key, values, rest);
    }
  }

  lemma BadListSomewhere(p: Profile)
    requires !Tagless(p)
    ensures p != [] && (!NoTags(p[0].1) || !Tagless(p[1..]))
  {
    hide NoTags;
    var i :| 0 <= i < |p| && !NoTags(p[i].1);
    if i > 0 { assert p[1..][i - 1] == p[i]; }
  }

  lemma NotInFront(p: Profile, first: (ProfileKey, seq<bytes>), more: Profile)
    requires p != [] && !(p[1..] <= more)
    ensures !(p <= [first] + more)
  {
    assert ([first] + more)[1..] == more;
  }

  // So the document gives the profile back if and only if no value holds a "<".
  lemma ShReadsBackIff(p: Profile)
    ensures ReadProfile(Marks(ShDocument(p))) == p <==> Tagless(p)
  {
    if Tagless(p) {
      ShReadsBack(p);
    } else {
      ShFrame();
      XmlHeadTag();
      OtherTags();
      var xml, closing := Ascii(XML_TAG) + Ascii(XML_REST), Ascii("</Sh-Data>");
      var body := ShEntries(p) + closing;
      hide Marks, MarksFrom, Ascii, Tag, ShEntries, IndexOf, XmlHead, XML_TAG, XML_REST, Tagless, ReadProfile;
      assert ShDocument(p) == Tag(xml) + (Tag(Ascii("Sh-Data")) + body);
      SkipMark(xml, Tag(Ascii("Sh-Data")) + body);
      SkipMark(Ascii("Sh-Data"), body);
      BadEntriesRead(p, closing);
    }
  }

  // A profile whose one value holds the tags between two: its document is that of the
  // profile with the two values.
  lemma TagsInValueForge(a: bytes, b: bytes)
    ensures ShDocument([(AssociatedUris, [a + Ascii("</item>") + Ascii("<item>") + b])])
         == ShDocument([(AssociatedUris, [a, b])])
  {
    hide Ascii, KeyName, XmlHead;
    var open, close := Ascii("<item>"), Ascii("</item>");
    OneElement(open, a + close + open + b, close);
    TwoElements(open, a, b, close);
    assert open + (a + close + open + b) + close == open + a + close + (open + b + close);
    var p, q := [(AssociatedUris, [a + close + open + b])], [(AssociatedUris, [a, b])];
    assert p[1..] == [] && q[1..] == [];
    assert p[0].1 == [a + close + open + b] && q[0].1 == [a, b];
    hide Elements;
    assert ShEntries(p) == ShEntries(q);
  }

  lemma OneElement(open: bytes, a: bytes, close: bytes)
    ensures Elements(open, [a], close) == open + a + close
  {
    assert [a][1..] == [];
  }

  lemma TwoElements(open: bytes, a: bytes, b: bytes, close: bytes)
    ensures Elements(open, [a, b], close) == open + a + close + (open + b + close)
  {
    assert [a, b][1..] == [b];
    OneElement(open, b, close);
  }

  // --- The Cx document ---

  // The texts shown under one tag.
  function Shown(b: bytes, tag: bytes): seq<bytes> { Texts(Marks(b), tag) }

  // Whatever follows, these octets show these texts and then what follows shows its own.
  ghost predicate Adds(b: bytes, tag: bytes, texts: seq<bytes>) {
    forall rest :: Shown(b + rest, tag) == texts + Shown(rest, tag)
  }

  lemma AddsBoth(a: bytes, b: bytes, tag: bytes, xs: seq<bytes>, ys: seq<bytes>)
    requires Adds(a, tag, xs) && Adds(b, tag, ys)
    ensures Adds(a + b, tag, xs + ys)
  {
    hide Shown;
    forall rest ensures Shown(a + b + rest, tag) == xs + ys + Shown(rest, tag) {
      assert a + b + rest == a + (b + rest);
      assert xs + (ys + Shown(rest, tag)) == xs + ys + Shown(rest, tag);
    }
  }

  lemma AddsText(text: bytes, tag: bytes)
    requires 60 !in text
    ensures Adds(text, tag, [])
  {
    hide Marks;
    forall rest ensures Shown(text + rest, tag) == [] + Shown(rest, tag) {
      MarksSkip(text, rest);
    }
  }

  lemma AddsTag(other: bytes, tag: bytes)
    requires 62 !in other && other != tag
    ensures Adds(Tag(other), tag, [])
  {
    hide Marks, Tag, IndexOf;
    forall rest ensures Shown(Tag(other) + rest, tag) == [] + Shown(rest, tag) {
      MarksTag(other, rest);
      TextsOfOne(Mark(other, rest[..IndexOf(rest, 60)]), Marks(rest), tag);
    }
  }

  lemma AddsElement(tag: bytes, text: bytes, next: bytes)
    requires 62 !in tag && 62 !in next && next != tag && 60 !in text
    ensures Adds(Tag(tag) + text + Tag(next), tag, [text])
  {
    hide Marks, Tag, IndexOf;
    forall rest ensures Shown(Tag(tag) + text + Tag(next) + rest, tag) == [text] + Shown(rest, tag) {
      MarksElement(tag, text, next, rest);
      TextsOfTwo(Mark(tag, text), Mark(next, rest[..IndexOf(rest, 60)]), Marks(rest), tag);
    }
  }

  lemma AddsOther(a: bytes, text: bytes, b: bytes, tag: bytes)
    requires Adds(a, tag, []) && 60 !in text && Adds(b, tag, [])
    ensures Adds(a + text + b, tag, [])
  {
    hide Adds;
    AddsText(text, tag);
    AddsNothing(a, text, tag);
    AddsNothing(a + text, b, tag);
  }

  const ID := "Identity"
  const IFC := "InitialFilterCriteria"

  predicate TagName(tag: string) {
    tag != "" && forall i :: 0 <= i < |tag| ==> tag[i] < 128 as char && tag[i] != '>' && tag[i] != '<'
  }

  lemma AddsStart(tag: string, read: string)
    requires TagName(tag) && |tag| != |read|
    ensures Adds(Start(tag), Ascii(read), [])
  {
    TagText(tag);
    assert |Ascii(tag)| != |Ascii(read)|;
    hide Ascii, Adds;
    AddsTag(Ascii(tag), Ascii(read));
  }

  lemma AddsRead(tag: string, text: bytes, next: string)
    requires TagName(tag) && TagName(next) && |tag| != |next| && 60 !in text
    ensures Adds(Start(tag) + text + Start(next), Ascii(tag), [text])
  {
    TagText(tag);
    TagText(next);
    assert |Ascii(tag)| != |Ascii(next)|;
    hide Ascii, Adds;
    AddsElement(Ascii(tag), text, Ascii(next));
  }

  lemma Names()
    ensures TagName("PublicIdentity") && TagName("/Identity") && TagName("/PublicIdentity")
    ensures TagName("IMSSubscription") && TagName("ServiceProfile") && TagName("/ServiceProfile")
  {
  }

  lemma MoreNames()
    ensures TagName("/IMSSubscription") && TagName("/InitialFilterCriteria") && TagName(IFC) && TagName(ID)
  {
  }

  lemma Blank(text: string, tag: bytes)
    requires text in {"\n", "\n  ", "  ", INDENT}
    ensures Adds(Ascii(text), tag, [])
  {
    AsciiChars(text);
    hide Adds, Ascii;
    AddsText(Ascii(text), tag);
  }

  // An identity line shows the identity under its tag, and nothing under the other.
  lemma IdentityShown(publicId: bytes, read: string)
    requires 60 !in publicId && (read == ID || read == IFC)
    ensures Adds(Start("PublicIdentity") + Start("Identity") + publicId
                 + (Start("/Identity") + Start("/PublicIdentity") + Ascii("\n")),
                 Ascii(read), if read == ID then [publicId] else [])
  {
    hide Adds, TagName, Ascii, Start;
    var tag, shown := Ascii(read), if read == ID then [publicId] else [];
    InnerShown(publicId, read);
    Names();
    AddsStart("PublicIdentity", read);
    AddsStart("/PublicIdentity", read);
    Blank("\n", tag);
    AddsNothing(Start("/PublicIdentity"), Ascii("\n"), tag);
    var middle, last := Start(ID) + publicId + Start("/Identity"), Start("/PublicIdentity") + Ascii("\n");
    AddsBoth(middle, last, tag, shown, []);
    AddsBoth(Start("PublicIdentity"), middle + last, tag, [], shown + []);
    assert [] + (shown + []) == shown;
    LineAssociates(Start("PublicIdentity"), Start(ID), publicId, Start("/Identity"), Start("/PublicIdentity"), Ascii("\n"));
  }

  lemma LineAssociates(a: bytes, b: bytes, c: bytes, d: bytes, e: bytes, f: bytes)
    ensures a + b + c + (d + e + f) == a + ((b + c + d) + (e + f))
  {
  }

  lemma InnerShown(publicId: bytes, read: string)
    requires 60 !in publicId && (read == ID || read == IFC)
    ensures Adds(Start(ID) + publicId + Start("/Identity"), Ascii(read), if read == ID then [publicId] else [])
  {
    Names();
    MoreNames();
    hide Adds, TagName, Ascii, Start;
    if read == ID {
      AddsRead(ID, publicId, "/Identity");
    } else {
      AddsStart(ID, read);
      AddsStart("/Identity", read);
      AddsOther(Start(ID), publicId, Start("/Identity"), Ascii(read));
    }
  }

  lemma AddsNothing(a: bytes, b: bytes, tag: bytes)
    requires Adds(a, tag, []) && Adds(b, tag, [])
    ensures Adds(a + b, tag, [])
  {
    hide Adds;
    AddsBoth(a, b, tag, [], []);
    var none: seq<bytes> := [];
    assert none + none == none;
  }

  lemma AddsEmpty(tag: bytes)
    ensures Adds([], tag, [])
  {
    hide Shown;
    forall rest ensures Shown([] + rest, tag) == [] + Shown(rest, tag) { assert [] + rest == rest; }
  }

  // Elements each showing their text, or none of them showing any.
  lemma {:induction false} ElementsShown(open: bytes, values: seq<bytes>, close: bytes, tag: bytes, shows: bool)
    requires forall i :: 0 <= i < |values| ==> Adds(open + values[i] + close, tag, if shows then [values[i]] else [])
    ensures Adds(Elements(open, values, close), tag, if shows then values else [])
  {
    hide Adds;
    if values == [] {
      AddsEmpty(tag);
    } else {
      ElementsShown(open, values[1..], close, tag, shows);
      AddsBoth(open + values[0] + close, Elements(open, values[1..], close), tag,
               if shows then [values[0]] else [], if shows then values[1..] else []);
      assert [values[0]] + values[1..] == values;
      var none: seq<bytes> := [];
      assert none + none == none;
    }
  }

  lemma XmlShown(read: string)
    requires read == ID || read == IFC
    ensures Adds(XmlHead(), Ascii(read), [])
  {
    XmlHeadTag();
    assert |Ascii(XML_TAG) + Ascii(XML_REST)| != |Ascii(read)|;
    hide Adds, Ascii, XML_TAG, XML_REST;
    AddsTag(Ascii(XML_TAG) + Ascii(XML_REST), Ascii(read));
  }

  lemma CriterionShown(value: bytes, read: string)
    requires 60 !in value && (read == ID || read == IFC)
    ensures Adds(Ascii(INDENT) + Start(IFC) + value + (Start("/InitialFilterCriteria") + Ascii("\n")),
                 Ascii(read), if read == IFC then [value] else [])
  {
    MoreNames();
    hide Adds, TagName, Ascii, Start;
    var tag := Ascii(read);
    var shown := if read == IFC then [value] else [];
    Blank(INDENT, tag);
    Blank("\n", tag);
    var close := "/InitialFilterCriteria";
    if read == IFC {
      AddsRead(IFC, value, close);
    } else {
      AddsStart(IFC, read);
      AddsStart(close, read);
      AddsOther(Start(IFC), value, Start(close), tag);
    }
    AddsBoth(Start(IFC) + value + Start(close), Ascii("\n"), tag, shown, []);
    AddsBoth(Ascii(INDENT), Start(IFC) + value + Start(close) + Ascii("\n"), tag, [], shown + []);
    assert [] + (shown + []) == shown;
    assert Ascii(INDENT) + Start(IFC) + value + (Start(close) + Ascii("\n"))
        == Ascii(INDENT) + (Start(IFC) + value + Start(close) + Ascii("\n"));
  }

  lemma IndentedIdentity(publicId: bytes, read: string)
    requires 60 !in publicId && (read == ID || read == IFC)
    ensures var open, close := Start("PublicIdentity") + Start("Identity"), Start("/Identity") + Start("/PublicIdentity") + Ascii("\n");
      Adds(Ascii(INDENT) + open + publicId + close, Ascii(read), if read == ID then [publicId] else [])
  {
    IdentityShown(publicId, read);
    Blank(INDENT, Ascii(read));
    hide Adds, Ascii, Start;
    var open, close := Start("PublicIdentity") + Start("Identity"), Start("/Identity") + Start("/PublicIdentity") + Ascii("\n");
    var shown := if read == ID then [publicId] else [];
    AddsBoth(Ascii(INDENT), open + publicId + close, Ascii(read), [], shown);
    assert [] + shown == shown;
    assert Ascii(INDENT) + (open + publicId + close) == Ascii(INDENT) + open + publicId + close;
  }

  // The lines before the listed identities.
  function CxTop(publicId: bytes): bytes {
    XmlHead() + Ascii("\n") + Start("IMSSubscription") + Ascii("\n  ")
    + (Start("PublicIdentity") + Start("Identity") + publicId + (Start("/Identity") + Start("/PublicIdentity") + Ascii("\n")))
    + Ascii("  ") + Start("ServiceProfile") + Ascii("\n")
  }

  function CxBottom(): bytes { Ascii("  ") + Start("/ServiceProfile") + Ascii("\n") + Start("/IMSSubscription") }

  function CxHead(): bytes { XmlHead() + Ascii("\n") + Start("IMSSubscription") + Ascii("\n  ") }

  function CxLine(publicId: bytes): bytes {
    Start("PublicIdentity") + Start("Identity") + publicId + (Start("/Identity") + Start("/PublicIdentity") + Ascii("\n"))
  }

  lemma HeadShown(read: string)
    requires read == ID || read == IFC
    ensures Adds(CxHead(), Ascii(read), [])
  {
    Names();
    hide Adds, TagName, Ascii, Start, XmlHead;
    var tag := Ascii(read);
    XmlShown(read);
    Blank("\n", tag);
    Blank("\n  ", tag);
    AddsStart("IMSSubscription", read);
    AddsNothing(XmlHead(), Ascii("\n"), tag);
    AddsNothing(XmlHead() + Ascii("\n"), Start("IMSSubscription"), tag);
    AddsNothing(XmlHead() + Ascii("\n") + Start("IMSSubscription"), Ascii("\n  "), tag);
  }

  lemma ProfileShown(read: string)
    requires read == ID || read == IFC
    ensures Adds(Ascii("  ") + Start("ServiceProfile") + Ascii("\n"), Ascii(read), [])
  {
    Names();
    hide Adds, TagName, Ascii, Start;
    var tag := Ascii(read);
    Blank("\n", tag);
    Blank("  ", tag);
    AddsStart("ServiceProfile", read);
    AddsNothing(Ascii("  "), Start("ServiceProfile"), tag);
    AddsNothing(Ascii("  ") + Start("ServiceProfile"), Ascii("\n"), tag);
  }

  lemma TopShown(publicId: bytes, read: string)
    requires 60 !in publicId && (read == ID || read == IFC)
    ensures Adds(CxTop(publicId), Ascii(read), if read == ID then [publicId] else [])
  {
    hide Adds, TagName, Ascii, Start, CxTop, CxHead;
    var tag, shown := Ascii(read), if read == ID then [publicId] else [];
    IdentityShown(publicId, read);
    HeadShown(read);
    ProfileShown(read);
    AddsBoth(CxHead(), CxLine(publicId), tag, [], shown);
    assert [] + shown == shown && shown + [] == shown;
    var last := Ascii("  ") + Start("ServiceProfile") + Ascii("\n");
    AddsBoth(CxHead() + CxLine(publicId), last, tag, shown, []);
    TopInParts(publicId);
  }

  lemma TopInParts(publicId: bytes)
    ensures CxTop(publicId) == CxHead() + CxLine(publicId) + (Ascii("  ") + Start("ServiceProfile") + Ascii("\n"))
  {
    hide Ascii, Start, XmlHead;
  }

  lemma BottomShown(read: string)
    requires read == ID || read == IFC
    ensures Adds(CxBottom(), Ascii(read), [])
  {
    Names();
    MoreNames();
    hide Adds, TagName, Ascii, Start;
    var tag := Ascii(read);
    Blank("\n", tag);
    Blank("  ", tag);
    AddsStart("/ServiceProfile", read);
    AddsStart("/IMSSubscription", read);
    AddsNothing(Ascii("  "), Start("/ServiceProfile"), tag);
    AddsNothing(Ascii("  ") + Start("/ServiceProfile"), Ascii("\n"), tag);
    AddsNothing(Ascii("  ") + Start("/ServiceProfile") + Ascii("\n"), Start("/IMSSubscription"), tag);
  }

  lemma ListsShown(identities: seq<bytes>, criteria: seq<bytes>, read: string)
    requires NoTags(identities) && NoTags(criteria) && (read == ID || read == IFC)
    ensures var open, close := Start("PublicIdentity") + Start("Identity"), Start("/Identity") + Start("/PublicIdentity") + Ascii("\n");
      && Adds(Elements(Ascii(INDENT) + open, identities, close), Ascii(read), if read == ID then identities else [])
      && Adds(Elements(Ascii(INDENT) + Start(IFC), criteria, Start("/InitialFilterCriteria") + Ascii("\n")),
              Ascii(read), if read == IFC then criteria else [])
  {
    hide Adds, Ascii, Start;
    var open, close := Start("PublicIdentity") + Start("Identity"), Start("/Identity") + Start("/PublicIdentity") + Ascii("\n");
    forall i | 0 <= i < |identities|
      ensures Adds(Ascii(INDENT) + open + identities[i] + close, Ascii(read), if read == ID then [identities[i]] else [])
    {
      IndentedIdentity(identities[i], read);
    }
    ElementsShown(Ascii(INDENT) + open, identities, close, Ascii(read), read == ID);
    var shut := Start("/InitialFilterCriteria") + Ascii("\n");
    forall i | 0 <= i < |criteria|
      ensures Adds(Ascii(INDENT) + Start(IFC) + criteria[i] + shut, Ascii(read), if read == IFC then [criteria[i]] else [])
    {
      CriterionShown(criteria[i], read);
    }
    ElementsShown(Ascii(INDENT) + Start(IFC), criteria, shut, Ascii(read), read == IFC);
  }

  // The document shows the subscriber's own identity twice and then its associated
  // ones, and its filter criteria, each list in order.
  lemma CxShows(s: Subscriber)
    requires 60 !in s.publicId && NoTags(ListOf(s.profile, AssociatedUris)) && NoTags(ListOf(s.profile, InitialFilterCriteria))
    ensures Shown(CxDocument(s), Ascii("Identity")) == [s.publicId, s.publicId] + ListOf(s.profile, AssociatedUris)
    ensures Shown(CxDocument(s), Ascii("InitialFilterCriteria")) == ListOf(s.profile, InitialFilterCriteria)
  {
    CxShownUnder(s, ID);
    CxShownUnder(s, IFC);
  }

  lemma CxShownUnder(s: Subscriber, read: string)
    requires 60 !in s.publicId && NoTags(ListOf(s.profile, AssociatedUris)) && NoTags(ListOf(s.profile, InitialFilterCriteria))
    requires read == ID || read == IFC
    ensures Shown(CxDocument(s), Ascii(read))
      == if read == ID then [s.publicId, s.publicId] + ListOf(s.profile, AssociatedUris)
         else ListOf(s.profile, InitialFilterCriteria)
  {
    hide Adds, Ascii, Start, XmlHead, Shown, ListOf, Elements;
    var tag := Ascii(read);
    var open, close := Start("PublicIdentity") + Start("Identity"), Start("/Identity") + Start("/PublicIdentity") + Ascii("\n");
    var uris, criteria := ListOf(s.profile, AssociatedUris), ListOf(s.profile, InitialFilterCriteria);
    TopShown(s.publicId, read);
    ListsShown([s.publicId], criteria, read);
    ListsShown(uris, criteria, read);
    BottomShown(read);
    var own, listed := Elements(Ascii(INDENT) + open, [s.publicId], close), Elements(Ascii(INDENT) + open, uris, close);
    var last := Elements(Ascii(INDENT) + Start(IFC), criteria, Start("/InitialFilterCriteria") + Ascii("\n"));
    var a, b := if read == ID then [s.publicId] else [], if read == ID then uris else [];
    var c := if read == IFC then criteria else [];
    AddsBoth(CxTop(s.publicId), own, tag, a, a);
    AddsBoth(CxTop(s.publicId) + own, listed, tag, a + a, b);
    AddsBoth(CxTop(s.publicId) + own + listed, last, tag, a + a + b, c);
    AddsBoth(CxTop(s.publicId) + own + listed + last, CxBottom(), tag, a + a + b + c, []);
    DocumentInParts(s);
    AddsAll(CxDocument(s), tag, a + a + b + c + []);
  }

  lemma DocumentInParts(s: Subscriber)
    ensures var open, close := Start("PublicIdentity") + Start("Identity"), Start("/Identity") + Start("/PublicIdentity") + Ascii("\n");
      CxDocument(s) == CxTop(s.publicId) + Elements(Ascii(INDENT) + open, [s.publicId], close)
        + Elements(Ascii(INDENT) + open, ListOf(s.profile, AssociatedUris), close)
        + Elements(Ascii(INDENT) + Start(IFC), ListOf(s.profile, InitialFilterCriteria),
                   Start("/InitialFilterCriteria") + Ascii("\n"))
        + CxBottom()
  {
    hide Ascii, Start, XmlHead, ListOf, Elements;
  }

  lemma AddsAll(b: bytes, tag: bytes, texts: seq<bytes>)
    requires Adds(b, tag, texts)
    ensures Shown(b, tag) == texts
  {
    assert b + [] == b;
    assert Shown(b + [], tag) == texts + Shown([], tag);
    NoMarks();
    assert Shown([], tag) == [];
  }
}
