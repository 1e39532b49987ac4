/** Quoting one argument of the command line `serve` prints (internal/bootstrap/create.go),
    against the rules by which Microsoft's C run-time and a POSIX shell split a line. */
module ArgumentQuoting {

  function Slashes(n: nat): string {
    seq(n, _ => '\\')
  }

  predicate IsBlank(c: char) {
    c == ' ' || c == '\t'
  }

  // ---------------------------------------------------------------- the Windows quoting

  /** The text between the quotes, after `slashes` backslashes that are not written yet. */
  function Escaped(value: string, slashes: nat): string
    decreases value
  {
    if value == "" then Slashes(2 * slashes)
    else if value[0] == '\\' then Escaped(value[1..], slashes + 1)
    else if value[0] == '"' then Slashes(2 * slashes + 1) + "\"" + Escaped(value[1..], 0)
    else Slashes(slashes) + [value[0]] + Escaped(value[1..], 0)
  }

  predicate NeedsQuotes(value: string) {
    exists i :: 0 <= i < |value| && (IsBlank(value[i]) || value[i] == '"')
  }

  function Quoted(value: string): string {
    if value == "" then "\"\""
    else if !NeedsQuotes(value) then value
    else "\"" + Escaped(value, 0) + "\""
  }

  method WriteSlashes(b: string, n: nat) returns (r: string)
    ensures r == b + Slashes(n)
  {
    r := b;
    for k := 0 to n
      invariant r == b + Slashes(k)
    {
      r := r + "\\";
    }
  }

  method QuoteWindowsArg(value: string) returns (quoted: string)
    ensures quoted == Quoted(value)
  {
    if value == "" {
      return "\"\"";
    }
    if !NeedsQuotes(value) {
      return value;
    }
    quoted := "\"";
    var slashes := 0;
    for i := 0 to |value|
      invariant 0 <= slashes
      invariant quoted + Escaped(value[i..], slashes) == "\"" + Escaped(value, 0)
    {
      assert value[i..][0] == value[i] && value[i..][1..] == value[i + 1..];
      match value[i] {
        case '\\' =>
          slashes := slashes + 1;
        case '"' =>
          quoted := WriteSlashes(quoted, slashes * 2 + 1);
          quoted := quoted + "\"";
          slashes := 0;
        case c =>
          quoted := WriteSlashes(quoted, slashes);
          slashes := 0;
          quoted := quoted + [c];
      }
    }
    quoted := WriteSlashes(quoted, slashes * 2);
    quoted := quoted + "\"";
  }

  // ---------------------------------------------------------------- how the C run-time reads it

  /** One argument and the rest of the line. Backslashes count only before a quote: each pair
      is one backslash, an odd one makes the quote literal; inside quotes `""` is one quote. */
  function ReadArg(line: string, inQuotes: bool, slashes: nat): (string, string)
    decreases line
  {
    if line == "" then (Slashes(slashes), "")
    else if line[0] == '\\' then ReadArg(line[1..], inQuotes, slashes + 1)
    else if line[0] == '"' then
      if slashes % 2 == 1 then
        var (arg, rest) := ReadArg(line[1..], inQuotes, 0);
        (Slashes(slashes / 2) + "\"" + arg, rest)
      else if inQuotes && |line| > 1 && line[1] == '"' then
        var (arg, rest) := ReadArg(line[2..], inQuotes, 0);
        (Slashes(slashes / 2) + "\"" + arg, rest)
      else
        var (arg, rest) := ReadArg(line[1..], !inQuotes, 0);
        (Slashes(slashes / 2) + arg, rest)
    else if IsBlank(line[0]) && !inQuotes then (Slashes(slashes), line)
    else
      var (arg, rest) := ReadArg(line[1..], inQuotes, 0);
      (Slashes(slashes) + [line[0]] + arg, rest)
  }

  /** The arguments after the program name. */
  function ReadArgs(line: string): seq<string>
    decreases |line|
  {
    if line == "" then []
    else if IsBlank(line[0]) then ReadArgs(line[1..])
    else
      var (arg, rest) := ReadArg(line, false, 0);
      if |rest| < |line| then [arg] + ReadArgs(rest) else [arg]
  }

  predicate EndsArgument(tail: string) {
    tail == "" || IsBlank(tail[0])
  }

  lemma {:induction false} SlashesAreCounted(n: nat, rest: string, inQuotes: bool, slashes: nat)
    ensures ReadArg(Slashes(n) + rest, inQuotes, slashes) == ReadArg(rest, inQuotes, slashes + n)
    decreases n
  {
    if n == 0 {
      assert Slashes(0) + rest == rest;
    } else {
      assert (Slashes(n) + rest)[1..] == Slashes(n - 1) + rest;
      SlashesAreCounted(n - 1, rest, inQuotes, slashes + 1);
    }
  }

  /** An escaped quote inside quotes is one quote, after its backslashes. */
  lemma ReadQuote(slashes: nat, rest: string)
    ensures var (arg, tail) := ReadArg(rest, true, 0);
      ReadArg(Slashes(2 * slashes + 1) + ("\"" + rest), true, 0) == (Slashes(slashes) + "\"" + arg, tail)
  {
    SlashesAreCounted(2 * slashes + 1, "\"" + rest, true, 0);
    assert ("\"" + rest)[1..] == rest;
  }

  lemma ReadCharacter(slashes: nat, c: char, rest: string)
    requires c != '"' && c != '\\'
    ensures var (arg, tail) := ReadArg(rest, true, 0);
      ReadArg(Slashes(slashes) + ([c] + rest), true, 0) == (Slashes(slashes) + [c] + arg, tail)
  {
    SlashesAreCounted(slashes, [c] + rest, true, 0);
    assert ([c] + rest)[1..] == rest;
  }

  lemma ReadClose(slashes: nat, tail: string)
    requires EndsArgument(tail)
    ensures ReadArg(Slashes(2 * slashes) + ("\"" + tail), true, 0) == (Slashes(slashes), tail)
  {
    SlashesAreCounted(2 * slashes, "\"" + tail, true, 0);
    assert ("\"" + tail)[1..] == tail;
    assert Slashes(slashes) + Slashes(0) == Slashes(slashes);
  }

  /** How the escaped text starts, followed by anything. */
  lemma EscapedStarts(value: string, slashes: nat, close: string)
    requires value != ""
    ensures var text, line := Escaped(value, slashes) + close, Escaped(value[1..], 0) + close;
      && (value[0] == '\\' ==> text == Escaped(value[1..], slashes + 1) + close)
      && (value[0] == '"' ==> text == Slashes(2 * slashes + 1) + ("\"" + line))
      && (value[0] != '\\' && value[0] != '"' ==> text == Slashes(slashes) + ([value[0]] + line))
  {
    var rest := Escaped(value[1..], 0);
    assert Slashes(2 * slashes + 1) + "\"" + rest + close == Slashes(2 * slashes + 1) + ("\"" + (rest + close));
    assert Slashes(slashes) + [value[0]] + rest + close == Slashes(slashes) + ([value[0]] + (rest + close));
  }

  lemma ValueStarts(value: string, slashes: nat)
    requires value != ""
    ensures Slashes(slashes) + [value[0]] + (Slashes(0) + value[1..]) == Slashes(slashes) + value
    ensures value[0] == '\\' ==> Slashes(slashes + 1) + value[1..] == Slashes(slashes) + value
  {
    assert Slashes(0) + value[1..] == value[1..] && [value[0]] + value[1..] == value;
    assert value[0] == '\\' ==> Slashes(slashes + 1) == Slashes(slashes) + [value[0]];
  }

  lemma {:induction false} EscapedIsReadBack(value: string, slashes: nat, tail: string)
    requires EndsArgument(tail)
    ensures ReadArg(Escaped(value, slashes) + ("\"" + tail), true, 0) == (Slashes(slashes) + value, tail)
    decreases value, 1
  {
    var close := "\"" + tail;
    if value == "" {
      ReadClose(slashes, tail);
      assert Slashes(slashes) + value == Slashes(slashes);
    } else {
      EscapedStarts(value, slashes, close);
      ValueStarts(value, slashes);
      EscapedStep(Escaped(value, slashes) + close, value, slashes, close, tail);
    }
  }

  /** One character of the induction, on the text as a whole. */
  lemma {:induction false} EscapedStep(text: string, value: string, slashes: nat, close: string, tail: string)
    requires EndsArgument(tail) && value != "" && close == "\"" + tail
    requires value[0] == '\\' ==> text == Escaped(value[1..], slashes + 1) + close
    requires value[0] == '"' ==> text == Slashes(2 * slashes + 1) + ("\"" + (Escaped(value[1..], 0) + close))
    requires value[0] != '\\' && value[0] != '"' ==> text == Slashes(slashes) + ([value[0]] + (Escaped(value[1..], 0) + close))
    requires Slashes(slashes) + [value[0]] + (Slashes(0) + value[1..]) == Slashes(slashes) + value
    requires value[0] == '\\' ==> Slashes(slashes + 1) + value[1..] == Slashes(slashes) + value
    ensures ReadArg(text, true, 0) == (Slashes(slashes) + value, tail)
    decreases value, 0
  {
    if value[0] == '\\' {
      EscapedIsReadBack(value[1..], slashes + 1, tail);
    } else {
      EscapedIsReadBack(value[1..], 0, tail);
      var line := Escaped(value[1..], 0) + close;
      if value[0] == '"' {
        ReadQuote(slashes, line);
      } else {
        ReadCharacter(slashes, value[0], line);
      }
    }
  }

  lemma {:induction false} PlainIsReadBack(value: string, slashes: nat, tail: string)
    requires !NeedsQuotes(value) && EndsArgument(tail)
    ensures ReadArg(value + tail, false, slashes) == (Slashes(slashes) + value, tail)
    decreases value
  {
    if value == "" {
      assert value + tail == tail;
      assert Slashes(slashes) + value == Slashes(slashes);
    } else {
      var c, rest := value[0], value[1..];
      assert forall i :: 0 <= i < |rest| ==> rest[i] == value[i + 1];
      assert (value + tail)[1..] == rest + tail;
      if c == '\\' {
        PlainIsReadBack(rest, slashes + 1, tail);
        assert Slashes(slashes + 1) + rest == Slashes(slashes) + value;
      } else {
        PlainIsReadBack(rest, 0, tail);
        assert Slashes(slashes) + [c] + (Slashes(0) + rest) == Slashes(slashes) + value;
      }
    }
  }

  lemma QuotedArgIsReadBack(value: string, tail: string)
    requires EndsArgument(tail)
    ensures ReadArg(Quoted(value) + tail, false, 0) == (value, tail)
  {
    assert Slashes(0) + value == value;
    if value != "" && !NeedsQuotes(value) {
      PlainIsReadBack(value, 0, tail);
    } else {
      var inner := Escaped(value, 0) + ("\"" + tail);
      assert value == "" ==> Escaped(value, 0) == "";
      assert Quoted(value) + tail == "\"" + inner;
      assert ("\"" + inner)[1..] == inner;
      EscapedIsReadBack(value, 0, tail);
      assert Slashes(0) + value == value;
    }
  }

  lemma QuotedStartsAnArgument(value: string)
    ensures Quoted(value) != "" && !IsBlank(Quoted(value)[0])
  {
  }

  /** Wherever the quoted argument stands in a line, the run-time reads back exactly it, and
      the arguments that follow are read as if it were not there. */
  lemma QuotedIsReadBack(value: string, tail: string)
    requires EndsArgument(tail)
    ensures ReadArgs(Quoted(value) + tail) == [value] + ReadArgs(tail)
  {
    QuotedStartsAnArgument(value);
    QuotedArgIsReadBack(value, tail);
    assert (Quoted(value) + tail)[0] == Quoted(value)[0];
  }

  // ---------------------------------------------------------------- the POSIX quoting

  function EscapedQuotes(value: string): string {
    if value == "" then ""
    else (if value[0] == '\'' then "'\\''" else [value[0]]) + EscapedQuotes(value[1..])
  }

  function PosixQuoted(value: string): string {
    "'" + EscapedQuotes(value) + "'"
  }

  /** One word and the rest of the line: single quotes keep every character, a backslash
      outside quotes keeps the next one (section 2.2 of the POSIX shell command language). */
  function ReadWord(line: string, inQuotes: bool): (string, string)
    decreases line
  {
    if line == "" then ("", "")
    else if line[0] == '\'' then ReadWord(line[1..], !inQuotes)
    else if !inQuotes && line[0] == '\\' && |line| > 1 then
      var (word, rest) := ReadWord(line[2..], inQuotes);
      ([line[1]] + word, rest)
    else if !inQuotes && IsBlank(line[0]) then ("", line)
    else
      var (word, rest) := ReadWord(line[1..], inQuotes);
      ([line[0]] + word, rest)
  }

  /** Leaving the quotes, an escaped quote, and entering them again reads as one quote. */
  lemma ReadEscapedQuote(rest: string)
    ensures var (word, tail) := ReadWord(rest, true); ReadWord("'\\''" + rest, true) == ("'" + word, tail)
  {
    var line := "'\\''" + rest;
    var outside, again := line[1..], line[3..];
    assert outside[0] == '\\' && outside[1] == '\'' && outside[2..] == again;
    assert again[0] == '\'' && again[1..] == rest;
    assert ReadWord(line, true) == ReadWord(outside, false);
    assert ReadWord(again, false) == ReadWord(rest, true);
  }

  lemma ReadQuotedCharacter(c: char, rest: string)
    requires c != '\''
    ensures var (word, tail) := ReadWord(rest, true); ReadWord([c] + rest, true) == ([c] + word, tail)
  {
    assert ([c] + rest)[1..] == rest;
  }

  lemma EscapedQuotesStart(value: string, close: string)
    requires value != ""
    ensures EscapedQuotes(value) + close
         == (if value[0] == '\'' then "'\\''" else [value[0]]) + (EscapedQuotes(value[1..]) + close)
  {
  }

  lemma {:induction false} EscapedQuotesAreReadBack(value: string, tail: string)
    requires EndsArgument(tail)
    ensures ReadWord(EscapedQuotes(value) + ("'" + tail), true) == (value, tail)
    decreases value
  {
    var close := "'" + tail;
    if value == "" {
      assert EscapedQuotes(value) + close == close && close[1..] == tail;
    } else {
      EscapedQuotesAreReadBack(value[1..], tail);
      EscapedQuotesStart(value, close);
      ReadQuotedStep(EscapedQuotes(value) + close, value, EscapedQuotes(value[1..]) + close, tail);
    }
  }

  lemma ReadQuotedStep(text: string, value: string, rest: string, tail: string)
    requires value != "" && ReadWord(rest, true) == (value[1..], tail)
    requires text == (if value[0] == '\'' then "'\\''" else [value[0]]) + rest
    ensures ReadWord(text, true) == (value, tail)
  {
    assert [value[0]] + value[1..] == value;
    if value[0] == '\'' {
      ReadEscapedQuote(rest);
    } else {
      ReadQuotedCharacter(value[0], rest);
    }
  }

  lemma PosixQuotedIsReadBack(value: string, tail: string)
    requires EndsArgument(tail)
    ensures ReadWord(PosixQuoted(value) + tail, false) == (value, tail)
  {
    var line := PosixQuoted(value) + tail;
    assert line[1..] == EscapedQuotes(value) + ("'" + tail);
    EscapedQuotesAreReadBack(value, tail);
  }
}
