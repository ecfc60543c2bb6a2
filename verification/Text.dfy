// Values shared by every component: optional and fallible results, bytes, and
// the decimal text that both the Python sidecars and the SIP worker write
// into their messages and caches.
module Text {

  datatype Option<+T> = None | Some(value: T)

  datatype Result<+T> = Ok(value: T) | Err(error: string)

  type byte = b: int | 0 <= b < 256

  type bytes = seq<byte>

  // Octets of ASCII text, and text whose characters are those octets.
  function Ascii(s: string): (b: bytes)
    ensures |b| == |s|
  {
    seq(|s|, i requires 0 <= i < |s| => s[i] as int % 256)
  }

  function Latin(b: bytes): (s: string)
    ensures |s| == |b|
  {
    seq(|b|, i requires 0 <= i < |b| => b[i] as char)
  }

  predicate IsPrintableAscii(b: bytes) {
    forall i :: 0 <= i < |b| ==> 0x20 <= b[i] < 0x7F
  }

  predicate HasPrefix(s: string, prefix: string) {
    |prefix| <= |s| && s[..|prefix|] == prefix
  }

  predicate Contains(s: string, c: char) {
    exists i :: 0 <= i < |s| && s[i] == c
  }

  predicate HasSuffix(s: string, suffix: string) {
    |suffix| <= |s| && s[|s| - |suffix|..] == suffix
  }

  function LowerChar(c: char): char {
    if 'A' <= c <= 'Z' then (c as int + 32) as char else c
  }

  function Lower(s: string): (r: string)
    ensures |r| == |s|
  {
    seq(|s|, i requires 0 <= i < |s| => LowerChar(s[i]))
  }

  predicate IsBlank(c: char) { c == ' ' || '\t' <= c <= '\r' }

  function TrimLeft(s: string): string {
    if s != "" && IsBlank(s[0]) then TrimLeft(s[1..]) else s
  }

  function TrimRight(s: string): string {
    if s != "" && IsBlank(s[|s| - 1]) then TrimRight(s[..|s| - 1]) else s
  }

  function Trim(s: string): string { TrimRight(TrimLeft(s)) }

  lemma TrimFixed(s: string)
    requires s != "" && !IsBlank(s[0]) && !IsBlank(s[|s| - 1])
    ensures Trim(s) == s
  {
    assert TrimLeft(s) == s;
  }

  // Position of the first `c` at or after `from`, or |s|.
  function FindChar(s: string, c: char, from: nat): (at: nat)
    requires from <= |s|
    ensures from <= at <= |s|
    ensures at < |s| ==> s[at] == c
    ensures forall i :: from <= i < at ==> s[i] != c
    decreases |s| - from
  {
    if from == |s| || s[from] == c then from else FindChar(s, c, from + 1)
  }

  // --- Splitting at one character ---

  function Split(s: string, sep: char): (parts: seq<string>)
    ensures parts != []
  {
    var at := FindChar(s, sep, 0);
    if at == |s| then [s] else [s[..at]] + Split(s[at + 1..], sep)
  }

  function Join(parts: seq<string>, sep: string): string {
    if parts == [] then ""
    else if |parts| == 1 then parts[0]
    else parts[0] + sep + Join(parts[1..], sep)
  }

  lemma FindCharIs(s: string, c: char, from: nat, at: nat)
    requires from <= at <= |s|
    requires at < |s| ==> s[at] == c
    requires forall i :: from <= i < at ==> s[i] != c
    ensures FindChar(s, c, from) == at
  {
  }

  lemma {:induction false} SplitOfJoin(parts: seq<string>, sep: char)
    requires parts != []
    requires forall i :: 0 <= i < |parts| ==> !Contains(parts[i], sep)
    ensures Split(Join(parts, [sep]), sep) == parts
  {
    var s := Join(parts, [sep]);
    if |parts| == 1 {
      FindCharIs(s, sep, 0, |s|);
    } else {
      var rest := Join(parts[1..], [sep]);
      assert s == parts[0] + ([sep] + rest);
      FindCharIs(s, sep, 0, |parts[0]|);
      assert s[..|parts[0]|] == parts[0];
      assert s[|parts[0]| + 1..] == rest;
      SplitOfJoin(parts[1..], sep);
    }
  }

  // --- Decimal text ---

  function DigitChar(d: nat): char
    requires d < 10
  {
    ('0' as int + d) as char
  }

  function Dec(n: nat): string {
    if n < 10 then [DigitChar(n)] else Dec(n / 10) + [DigitChar(n % 10)]
  }

  function IntText(i: int): string {
    if i < 0 then "-" + Dec(-i) else Dec(i)
  }

  predicate IsDigit(c: char) {
    '0' <= c <= '9'
  }

  predicate AllDigits(s: string) {
    forall i :: 0 <= i < |s| ==> IsDigit(s[i])
  }

  function DigitsValue(s: string): nat
    requires AllDigits(s)
  {
    if s == [] then 0
    else DigitsValue(s[..|s| - 1]) * 10 + (s[|s| - 1] as int - '0' as int)
  }

  // Accepts an optional minus sign followed by at least one digit.
  function ParseInt(s: string): Option<int> {
    if s != [] && AllDigits(s) then Some(DigitsValue(s))
    else if |s| > 1 && s[0] == '-' && AllDigits(s[1..]) then
      (var magnitude: int := DigitsValue(s[1..]); Some(-magnitude))
    else None
  }

  lemma {:induction false} DecShape(n: nat)
    ensures Dec(n) != [] && AllDigits(Dec(n))
    ensures DigitsValue(Dec(n)) == n
    ensures n > 0 ==> Dec(n)[0] != '0'
  {
    if n < 10 {
    } else {
      DecShape(n / 10);
      assert Dec(n)[..|Dec(n)| - 1] == Dec(n / 10);
    }
  }

  lemma {:induction false} DecLength(n: nat, k: nat)
    requires k > 0 && n < PowTen(k)
    ensures |Dec(n)| <= k
  {
    if n < 10 {
    } else {
      DecLength(n / 10, k - 1);
    }
  }

  function PowTen(k: nat): nat {
    if k == 0 then 1 else 10 * PowTen(k - 1)
  }

  lemma DecInjective(a: nat, b: nat)
    requires Dec(a) == Dec(b)
    ensures a == b
  {
    DecShape(a);
    DecShape(b);
  }

  lemma ParseIntText(i: int)
    ensures ParseInt(IntText(i)) == Some(i)
  {
    DecShape(if i < 0 then -i else i);
    if i < 0 {
      assert IntText(i)[1..] == Dec(-i);
      assert !IsDigit(IntText(i)[0]);
    }
  }

  // --- Cardinality of a set whose members all sit in numbered slots ---

  lemma {:induction false} SlotsBound<T>(members: set<T>, slots: seq<T>)
    requires forall x :: x in members ==> x in slots
    ensures |members| <= |slots|
  {
    if slots != [] {
      var x := slots[|slots| - 1];
      var rest := slots[..|slots| - 1];
      forall y | y in members - {x} ensures y in rest {
        var i :| 0 <= i < |slots| && slots[i] == y;
        assert rest[i] == y;
      }
      SlotsBound(members - {x}, rest);
      assert members <= (members - {x}) + {x};
      assert x in members ==> |members| == |members - {x}| + 1;
      assert x !in members ==> members - {x} == members;
    } else {
      assert members == {};
    }
  }
}
