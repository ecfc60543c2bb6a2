// Python's int() on decimal text, as the media module uses it.
module PythonInt {
  import opened Text

  // CPython refuses longer decimal strings.
  const MAX_DIGITS := 4300

  // Digits with single underscores between them.
  predicate IsDigitGroup(s: string) {
    && s != [] && IsDigit(s[0]) && IsDigit(s[|s| - 1])
    && (forall i :: 0 <= i < |s| ==> IsDigit(s[i]) || s[i] == '_')
    && (forall i :: 0 <= i < |s| - 1 ==> IsDigit(s[i]) || IsDigit(s[i + 1]))
  }

  function WithoutUnderscores(s: string): string {
    if s == [] then [] else (if s[0] == '_' then [] else [s[0]]) + WithoutUnderscores(s[1..])
  }

  lemma {:induction false} UnderscoresGone(s: string)
    requires forall i :: 0 <= i < |s| ==> IsDigit(s[i]) || s[i] == '_'
    ensures AllDigits(WithoutUnderscores(s))
  {
    if s == [] {
    } else {
      UnderscoresGone(s[1..]);
    }
  }

  function Magnitude(s: string): Option<nat> {
    if !IsDigitGroup(s) then None
    else
      var digits := WithoutUnderscores(s);
      UnderscoresGone(s);
      if |digits| > MAX_DIGITS then None else Some(DigitsValue(digits))
  }

  function PyInt(text: string): Option<int> {
    var s := Trim(text);
    var signed := s != [] && (s[0] == '-' || s[0] == '+');
    var magnitude := Magnitude(if signed then s[1..] else s);
    if magnitude.None? then None
    else
      var value: int := magnitude.value;
      Some(if signed && s[0] == '-' then -value else value)
  }

  lemma {:induction false} NoUnderscores(s: string)
    requires AllDigits(s)
    ensures WithoutUnderscores(s) == s
  {
    if s == [] {
    } else {
      NoUnderscores(s[1..]);
    }
  }

  lemma PyIntOfIntText(i: int)
    requires |Dec(if i < 0 then -i else i)| <= MAX_DIGITS
    ensures PyInt(IntText(i)) == Some(i)
  {
    var magnitude := if i < 0 then -i else i;
    var digits, text := Dec(magnitude), IntText(i);
    DecShape(magnitude);
    hide Dec;
    MagnitudeOfDigits(digits);
    hide Magnitude;
    assert !IsBlank(text[0]) && text[|text| - 1] == digits[|digits| - 1];
    TrimFixed(text);
    hide Trim;
    if i < 0 { assert text[1..] == digits; }
  }

  lemma MagnitudeOfDigits(digits: string)
    requires digits != "" && AllDigits(digits) && |digits| <= MAX_DIGITS
    ensures Magnitude(digits) == Some(DigitsValue(digits))
  {
    NoUnderscores(digits);
  }
}
