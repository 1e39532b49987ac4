/** Scanning JSON literals by index (trimJSON and isJSONNumber in internal/catalog/validate.go). */
module JsonLiterals {
  import opened Prelude

  predicate IsSpace(c: char) {
    c == ' ' || c == '\t' || c == '\n' || c == '\r'
  }

  predicate AllSpace(s: string) {
    forall i :: 0 <= i < |s| ==> IsSpace(s[i])
  }

  predicate CutAt(b: string, start: nat, end: nat, trimmed: string) {
    start <= end <= |b| && trimmed == b[start..end] && AllSpace(b[..start]) && AllSpace(b[end..])
  }

  /** What is left is the text without the white space around it. */
  method TrimJSON(b: string) returns (trimmed: string)
    ensures exists start: nat, end: nat :: CutAt(b, start, end, trimmed)
    ensures trimmed != "" ==> !IsSpace(trimmed[0]) && !IsSpace(trimmed[|trimmed| - 1])
  {
    var start, end: nat := 0, |b|;
    while start < end && IsSpace(b[start])
      invariant start <= end && AllSpace(b[..start])
    {
      start := start + 1;
    }
    while end > start && IsSpace(b[end - 1])
      invariant start <= end <= |b| && AllSpace(b[end..])
    {
      end := end - 1;
    }
    trimmed := b[start..end];
    assert CutAt(b, start, end, trimmed);
  }

  // ---------------------------------------------------------------- the number grammar

  predicate IsDigit(c: char) {
    '0' <= c <= '9'
  }

  predicate Digits(s: string) {
    s != "" && forall i :: 0 <= i < |s| ==> IsDigit(s[i])
  }

  /** The grammar of section 6 of RFC 8259: minus, integer, fraction, exponent. */
  predicate IntegerPart(s: string) {
    s == "0" || (Digits(s) && s[0] != '0')
  }

  predicate FractionPart(s: string) {
    s == "" || (s[0] == '.' && Digits(s[1..]))
  }

  predicate ExponentPart(s: string) {
    s == "" ||
    ((s[0] == 'e' || s[0] == 'E') &&
     (Digits(s[1..]) || (|s| > 1 && (s[1] == '+' || s[1] == '-') && Digits(s[2..]))))
  }

  /** The number is split after its minus sign, its integer and its fraction. */
  predicate SplitsAt(s: string, a: nat, b: nat, c: nat) {
    && a <= b <= c <= |s| && (s[..a] == "" || s[..a] == "-")
    && IntegerPart(s[a..b]) && FractionPart(s[b..c]) && ExponentPart(s[c..])
  }

  ghost predicate NumberLiteral(s: string) {
    exists a: nat, b: nat, c: nat :: SplitsAt(s, a, b, c)
  }

  /** The end of the run of digits that starts at i. */
  function RunEnd(s: string, i: nat): (end: nat)
    requires i <= |s|
    ensures i <= end <= |s|
    ensures forall k :: i <= k < end ==> IsDigit(s[k])
    ensures end < |s| ==> !IsDigit(s[end])
    decreases |s| - i
  {
    if i < |s| && IsDigit(s[i]) then RunEnd(s, i + 1) else i
  }

  method SkipDigits(s: string, i: nat) returns (end: nat)
    requires i <= |s|
    ensures end == RunEnd(s, i)
  {
    end := i;
    while end < |s| && s[end] >= '0' && s[end] <= '9'
      invariant i <= end <= |s| && RunEnd(s, end) == RunEnd(s, i)
    {
      end := end + 1;
    }
  }

  lemma RunIsUnique(s: string, i: nat, end: nat)
    requires i <= end <= |s| && (forall k :: i <= k < end ==> IsDigit(s[k])) && (end < |s| ==> !IsDigit(s[end]))
    ensures end == RunEnd(s, i)
  {
  }

  /** What follows an integer or a fraction is no digit. */
  lemma NoDigitFollows(s: string, a: nat, b: nat, c: nat)
    requires SplitsAt(s, a, b, c)
    ensures c < |s| ==> s[c] == 'e' || s[c] == 'E'
    ensures b < |s| ==> s[b] == '.' || s[b] == 'e' || s[b] == 'E'
    ensures b < c <==> b < |s| && s[b] == '.'
  {
    assert c < |s| ==> s[c..][0] == s[c];
    assert b < c ==> s[b..c][0] == s[b];
  }

  lemma SignEnds(s: string, a: nat, b: nat, c: nat)
    requires SplitsAt(s, a, b, c)
    ensures a < b && a == if s[0] == '-' then 1 else 0
  {
    assert s[a..b][0] == s[a];
    if a == 0 {
      assert s[a] != '-';
    } else {
      assert a == 1 && s[..1][0] == s[0];
    }
  }

  lemma IntegerEnds(s: string, a: nat, b: nat, c: nat)
    requires SplitsAt(s, a, b, c)
    ensures a < b && b == if s[a] == '0' then a + 1 else RunEnd(s, a + 1)
    ensures IsDigit(s[a])
  {
    SignEnds(s, a, b, c);
    NoDigitFollows(s, a, b, c);
    assert s[a..b][0] == s[a];
    if s[a] == '0' {
      assert s[a..b] == "0";
    } else {
      forall k | a <= k < b
        ensures IsDigit(s[k])
      {
        assert s[a..b][k - a] == s[k];
      }
      RunIsUnique(s, a + 1, b);
    }
  }

  lemma FractionEnds(s: string, a: nat, b: nat, c: nat)
    requires SplitsAt(s, a, b, c)
    ensures c == if b < |s| && s[b] == '.' then RunEnd(s, b + 1) else b
    ensures b < |s| && s[b] == '.' ==> b + 1 < c
  {
    NoDigitFollows(s, a, b, c);
    if b < c {
      assert s[b..c][1..] == s[b + 1..c];
      forall k | b + 1 <= k < c
        ensures IsDigit(s[k])
      {
        assert s[b + 1..c][k - b - 1] == s[k];
      }
      RunIsUnique(s, b + 1, c);
    }
  }

  /** Where the digits of an exponent start. */
  function ExponentStart(s: string, c: nat): nat
    requires c < |s|
  {
    if c + 1 < |s| && (s[c + 1] == '+' || s[c + 1] == '-') then c + 2 else c + 1
  }

  lemma ExponentEnds(s: string, c: nat)
    requires c < |s| && (s[c] == 'e' || s[c] == 'E')
    ensures ExponentPart(s[c..]) <==> ExponentStart(s, c) < |s| && RunEnd(s, ExponentStart(s, c)) == |s|
  {
    var d := ExponentStart(s, c);
    assert s[c..][0] == s[c] && s[c..][1..] == s[c + 1..];
    if c + 1 < |s| {
      assert s[c..][1] == s[c + 1] && s[c..][2..] == s[c + 2..];
      assert s[c + 1..][0] == s[c + 1];
    }
    if Digits(s[d..]) {
      forall k | d <= k < |s|
        ensures IsDigit(s[k])
      {
        assert s[d..][k - d] == s[k];
      }
      RunIsUnique(s, d, |s|);
    }
    if d < |s| && RunEnd(s, d) == |s| {
      assert forall k :: 0 <= k < |s[d..]| ==> s[d..][k] == s[d + k];
    }
  }

  /** Where a left-to-right scan stops after each part; None where it fails. */
  function IntegerStop(s: string, a: nat): Option<nat>
    requires a <= |s|
  {
    if a == |s| || !IsDigit(s[a]) then None
    else if s[a] == '0' then Some(a + 1)
    else Some(RunEnd(s, a + 1))
  }

  function FractionStop(s: string, b: nat): Option<nat>
    requires b <= |s|
  {
    if b == |s| || s[b] != '.' then Some(b)
    else if b + 1 == |s| || !IsDigit(s[b + 1]) then None
    else Some(RunEnd(s, b + 1))
  }

  function ExponentStop(s: string, c: nat): Option<nat>
    requires c <= |s|
  {
    if c == |s| || (s[c] != 'e' && s[c] != 'E') then Some(c)
    else if ExponentStart(s, c) >= |s| || !IsDigit(s[ExponentStart(s, c)]) then None
    else Some(RunEnd(s, ExponentStart(s, c)))
  }

  predicate Scans(s: string) {
    s != "" &&
    var a := if s[0] == '-' then 1 else 0;
    var b := IntegerStop(s, a);
    b.Some? && FractionStop(s, b.value).Some? && ExponentStop(s, FractionStop(s, b.value).value) == Some(|s|)
  }

  lemma GrammarScans(s: string, a: nat, b: nat, c: nat)
    requires SplitsAt(s, a, b, c)
    ensures Scans(s)
  {
    SignEnds(s, a, b, c);
    IntegerEnds(s, a, b, c);
    FractionEnds(s, a, b, c);
    NoDigitFollows(s, a, b, c);
    assert IntegerStop(s, a) == Some(b);
    if b < |s| && s[b] == '.' {
      assert s[b..c][1..] == s[b + 1..c] && s[b + 1..c][0] == s[b + 1];
    }
    assert FractionStop(s, b) == Some(c);
    if c < |s| {
      ExponentEnds(s, c);
    }
  }

  lemma IntegerScanned(s: string, a: nat)
    requires a <= |s| && IntegerStop(s, a).Some?
    ensures a < IntegerStop(s, a).value <= |s| && IntegerPart(s[a..IntegerStop(s, a).value])
  {
    var b := IntegerStop(s, a).value;
    assert s[a..b][0] == s[a];
    if s[a] == '0' {
      assert s[a..b] == "0";
    }
  }

  lemma FractionScanned(s: string, b: nat)
    requires b <= |s| && FractionStop(s, b).Some?
    ensures b <= FractionStop(s, b).value <= |s| && FractionPart(s[b..FractionStop(s, b).value])
  {
    var c := FractionStop(s, b).value;
    if b < c {
      assert s[b..c][0] == '.' && s[b..c][1..] == s[b + 1..c];
    }
  }

  lemma ScanIsTheGrammar(s: string)
    ensures Scans(s) <==> NumberLiteral(s)
  {
    if Scans(s) {
      var a := if s[0] == '-' then 1 else 0;
      IntegerScanned(s, a);
      var b := IntegerStop(s, a).value;
      FractionScanned(s, b);
      var c := FractionStop(s, b).value;
      if c < |s| {
        ExponentEnds(s, c);
      }
      assert SplitsAt(s, a, b, c);
    }
    if a: nat, b: nat, c: nat :| SplitsAt(s, a, b, c) {
      GrammarScans(s, a, b, c);
    }
  }

  method ScanFraction(s: string, b: nat) returns (stop: Option<nat>)
    requires b <= |s|
    ensures stop == FractionStop(s, b)
  {
    var i := b;
    if i < |s| && s[i] == '.' {
      i := i + 1;
      if i >= |s| || s[i] < '0' || s[i] > '9' {
        return None;
      }
      i := SkipDigits(s, i);
    }
    return Some(i);
  }

  method ScanExponent(s: string, c: nat) returns (stop: Option<nat>)
    requires c <= |s|
    ensures stop == ExponentStop(s, c)
  {
    var i := c;
    if i < |s| && (s[i] == 'e' || s[i] == 'E') {
      i := i + 1;
      if i < |s| && (s[i] == '+' || s[i] == '-') {
        i := i + 1;
      }
      if i >= |s| || s[i] < '0' || s[i] > '9' {
        return None;
      }
      i := SkipDigits(s, i);
    }
    return Some(i);
  }

  /** isJSONNumber accepts exactly the number literals of the grammar. */
  method IsJSONNumber(s: string) returns (ok: bool)
    ensures ok <==> NumberLiteral(s)
  {
    ScanIsTheGrammar(s);
    if |s| == 0 {
      return false;
    }
    var i := 0;
    if s[0] == '-' {
      i := i + 1;
    }
    if i >= |s| {
      return false;
    }
    if s[i] == '0' {
      i := i + 1;
    } else if s[i] >= '1' && s[i] <= '9' {
      i := SkipDigits(s, i + 1);
    } else {
      return false;
    }
    var fraction := ScanFraction(s, i);
    if fraction.None? {
      return false;
    }
    var exponent := ScanExponent(s, fraction.value);
    return exponent == Some(|s|);
  }
}
