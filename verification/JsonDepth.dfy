/** The nesting scanner that guards the recursive JSON canonicalizer (jsonDepth in
    internal/store/validation.go), against the nesting of JSON texts as RFC 8259 defines them. */
module JsonDepth {

  // ---------------------------------------------------------------- the scanner

  datatype Scan = Scan(depth: int, maximum: int, inString: bool, escaped: bool)

  const START := Scan(0, 0, false, false)

  function Next(s: Scan, c: char): Scan {
    if s.inString then
      if s.escaped then s.(escaped := false)
      else if c == '\\' then s.(escaped := true)
      else if c == '"' then s.(inString := false)
      else s
    else if c == '"' then s.(inString := true)
    else if c == '{' || c == '[' then
      s.(depth := s.depth + 1, maximum := if s.depth + 1 > s.maximum then s.depth + 1 else s.maximum)
    else if c == '}' || c == ']' then s.(depth := s.depth - 1)
    else s
  }

  function ScanAll(s: Scan, data: string): Scan
    decreases data
  {
    if data == "" then s else ScanAll(Next(s, data[0]), data[1..])
  }

  method Depth(data: string) returns (maximum: int)
    ensures maximum == ScanAll(START, data).maximum
  {
    var depth, inString, escaped := 0, false, false;
    maximum := 0;
    for i := 0 to |data|
      invariant ScanAll(Scan(depth, maximum, inString, escaped), data[i..]) == ScanAll(START, data)
    {
      var c := data[i];
      assert data[i..][0] == c && data[i..][1..] == data[i + 1..];
      if inString {
        if escaped {
          escaped := false;
          continue;
        }
        match c {
          case '\\' => escaped := true;
          case '"' => inString := false;
          case _ =>
        }
        continue;
      }
      match c {
        case '"' => inString := true;
        case '{' =>
          depth := depth + 1;
          if depth > maximum {
            maximum := depth;
          }
        case '[' =>
          depth := depth + 1;
          if depth > maximum {
            maximum := depth;
          }
        case '}' => depth := depth - 1;
        case ']' => depth := depth - 1;
        case _ =>
      }
    }
  }

  // ---------------------------------------------------------------- JSON texts

  /** One character of a string literal (section 7 of RFC 8259). */
  datatype Unit = Plain(c: char) | Escape(c: char) | Unicode(h0: char, h1: char, h2: char, h3: char)

  /** A JSON text with its insignificant whitespace. */
  datatype Json =
    | Scalar(text: string)
    | Text(units: seq<Unit>)
    | Array(lead: string, items: seq<Item>)
    | Object(lead: string, members: seq<Member>)

  datatype Item = Item(before: string, value: Json, after: string)

  datatype Member = Member(before: string, key: seq<Unit>, colon: string, item: Item)

  predicate IsHex(c: char) {
    '0' <= c <= '9' || 'a' <= c <= 'f' || 'A' <= c <= 'F'
  }

  predicate ValidUnit(u: Unit) {
    match u
    case Plain(c) => c != '"' && c != '\\' && ' ' <= c
    case Escape(c) => c in "\"\\/bfnrt"
    case Unicode(h0, h1, h2, h3) => IsHex(h0) && IsHex(h1) && IsHex(h2) && IsHex(h3)
  }

  predicate Whitespace(s: string) {
    forall i :: 0 <= i < |s| ==> s[i] in " \t\n\r"
  }

  /** A number or one of the literal names: nothing the scanner reacts to. */
  predicate ScalarText(s: string) {
    s == "true" || s == "false" || s == "null"
    || (s != "" && forall i :: 0 <= i < |s| ==> '0' <= s[i] <= '9' || s[i] in "+-.eE")
  }

  predicate Valid(j: Json) {
    match j
    case Scalar(text) => ScalarText(text)
    case Text(units) => forall u :: u in units ==> ValidUnit(u)
    case Array(lead, items) => Whitespace(lead) && forall i :: 0 <= i < |items| ==> ValidItem(items[i])
    case Object(lead, members) =>
      Whitespace(lead) && forall i :: 0 <= i < |members| ==> ValidMember(members[i])
  }

  predicate ValidMember(m: Member) {
    Whitespace(m.before) && Whitespace(m.colon) && (forall u :: u in m.key ==> ValidUnit(u)) && ValidItem(m.item)
  }

  predicate ValidItem(item: Item) {
    Whitespace(item.before) && Valid(item.value) && Whitespace(item.after)
  }

  function PrintUnit(u: Unit): string {
    match u
    case Plain(c) => [c]
    case Escape(c) => ['\\', c]
    case Unicode(h0, h1, h2, h3) => ['\\', 'u', h0, h1, h2, h3]
  }

  function PrintUnits(units: seq<Unit>): string {
    if units == [] then "" else PrintUnit(units[0]) + PrintUnits(units[1..])
  }

  function PrintText(units: seq<Unit>): string {
    "\"" + PrintUnits(units) + "\""
  }

  function Print(j: Json): string {
    match j
    case Scalar(text) => text
    case Text(units) => PrintText(units)
    case Array(lead, items) => "[" + (lead + PrintItems(items)) + "]"
    case Object(lead, members) => "{" + (lead + PrintMembers(members)) + "}"
  }

  function PrintItem(item: Item): string {
    item.before + Print(item.value) + item.after
  }

  function PrintItems(items: seq<Item>): string {
    if items == [] then ""
    else PrintItem(items[0]) + ((if |items| > 1 then "," else "") + PrintItems(items[1..]))
  }

  function PrintMembers(members: seq<Member>): string {
    if members == [] then ""
    else
      (members[0].before + PrintText(members[0].key)) + ((members[0].colon + ":") + PrintItem(members[0].item))
      + ((if |members| > 1 then "," else "") + PrintMembers(members[1..]))
  }

  function Max(a: nat, b: nat): nat {
    if a < b then b else a
  }

  /** How many arrays and objects enclose the deepest point. */
  function Nesting(j: Json): nat {
    match j
    case Scalar(_) => 0
    case Text(_) => 0
    case Array(_, items) => 1 + ItemsNesting(items)
    case Object(_, members) => 1 + MembersNesting(members)
  }

  function ItemsNesting(items: seq<Item>): nat {
    if items == [] then 0 else Max(Nesting(items[0].value), ItemsNesting(items[1..]))
  }

  function MembersNesting(members: seq<Member>): nat {
    if members == [] then 0 else Max(Nesting(members[0].item.value), MembersNesting(members[1..]))
  }

  // ---------------------------------------------------------------- scanner against nesting

  lemma {:induction false} ScanAppend(s: Scan, a: string, b: string)
    ensures ScanAll(s, a + b) == ScanAll(ScanAll(s, a), b)
    decreases a
  {
    if a == "" {
      assert a + b == b;
    } else {
      assert (a + b)[1..] == a[1..] + b;
      ScanAppend(Next(s, a[0]), a[1..], b);
    }
  }

  lemma ScanFirst(s: Scan, c: char, rest: string)
    ensures ScanAll(s, [c] + rest) == ScanAll(Next(s, c), rest)
    ensures ScanAll(s, [c]) == Next(s, c)
  {
    assert ([c] + rest)[1..] == rest;
    assert [c][1..] == "" && ScanAll(Next(s, c), "") == Next(s, c);
  }

  /** From outside a string the text nests to `depth` and comes back, never below its start. */
  ghost predicate Nests(text: string, depth: nat) {
    && (forall d: int, m: int :: d <= m ==>
          ScanAll(Scan(d, m, false, false), text) == Scan(d, if d + depth > m then d + depth else m, false, false))
    && (forall d: int, m: int, k: nat :: d <= m && k <= |text| ==>
          d <= ScanAll(Scan(d, m, false, false), text[..k]).depth)
  }

  lemma NestsConcat(a: string, x: nat, b: string, y: nat)
    requires Nests(a, x) && Nests(b, y)
    ensures Nests(a + b, Max(x, y))
  {
    forall d: int, m: int | d <= m
      ensures ScanAll(Scan(d, m, false, false), a + b)
           == Scan(d, if d + Max(x, y) > m then d + Max(x, y) else m, false, false)
    {
      ScanAppend(Scan(d, m, false, false), a, b);
      var m' := if d + x > m then d + x else m;
      assert ScanAll(Scan(d, m, false, false), a) == Scan(d, m', false, false);
    }
    forall d: int, m: int, k: nat | d <= m && k <= |a + b|
      ensures d <= ScanAll(Scan(d, m, false, false), (a + b)[..k]).depth
    {
      if k <= |a| {
        assert (a + b)[..k] == a[..k];
      } else {
        assert (a + b)[..k] == a + b[..k - |a|];
        ScanAppend(Scan(d, m, false, false), a, b[..k - |a|]);
        var m' := if d + x > m then d + x else m;
        assert ScanAll(Scan(d, m, false, false), a) == Scan(d, m', false, false);
      }
    }
  }

  predicate Neutral(c: char) {
    c != '"' && c != '{' && c != '}' && c != '[' && c != ']'
  }

  lemma {:induction false} NeutralScan(s: Scan, text: string)
    requires !s.inString && forall i :: 0 <= i < |text| ==> Neutral(text[i])
    ensures ScanAll(s, text) == s
    decreases text
  {
    if text == "" {
    } else {
      NeutralScan(s, text[1..]);
    }
  }

  lemma NeutralNests(text: string)
    requires forall i :: 0 <= i < |text| ==> Neutral(text[i])
    ensures Nests(text, 0)
  {
    forall d: int, m: int, k: nat | k <= |text|
      ensures ScanAll(Scan(d, m, false, false), text[..k]) == Scan(d, m, false, false)
    {
      NeutralScan(Scan(d, m, false, false), text[..k]);
    }
    assert text[..|text|] == text;
  }

  lemma ScanOf(text: string, x: nat, d: int, m: int)
    requires Nests(text, x) && d <= m
    ensures ScanAll(Scan(d, m, false, false), text) == Scan(d, if d + x > m then d + x else m, false, false)
  {
  }

  lemma BracketsScan(open: char, text: string, close: char, x: nat, d: int, m: int)
    requires Nests(text, x) && open in "{[" && close in "}]" && d <= m
    ensures ScanAll(Scan(d, m, false, false), [open] + (text + [close]))
         == Scan(d, if d + x + 1 > m then d + x + 1 else m, false, false)
  {
    var inside := Next(Scan(d, m, false, false), open);
    ScanFirst(Scan(d, m, false, false), open, text + [close]);
    ScanAppend(inside, text, [close]);
    ScanOf(text, x, d + 1, inside.maximum);
    ScanFirst(ScanAll(inside, text), close, "");
  }

  lemma BracketsPrefix(open: char, text: string, close: char, x: nat, d: int, m: int, k: nat)
    requires Nests(text, x) && open in "{[" && close in "}]" && d <= m && 0 < k <= |text| + 1
    ensures d + 1 <= ScanAll(Scan(d, m, false, false), ([open] + (text + [close]))[..k]).depth
  {
    var inside := Next(Scan(d, m, false, false), open);
    assert ([open] + (text + [close]))[..k] == [open] + text[..k - 1];
    ScanFirst(Scan(d, m, false, false), open, text[..k - 1]);
    assert inside == Scan(d + 1, inside.maximum, false, false);
  }

  lemma BracketsNest(open: char, text: string, close: char, x: nat)
    requires Nests(text, x) && open in "{[" && close in "}]"
    ensures Nests([open] + text + [close], x + 1)
    ensures forall k: nat :: 0 < k <= |text| + 1 ==> ScanAll(START, ([open] + text + [close])[..k]).depth > 0
  {
    var whole := [open] + (text + [close]);
    assert [open] + text + [close] == whole;
    forall d: int, m: int | d <= m
      ensures ScanAll(Scan(d, m, false, false), whole) == Scan(d, if d + x + 1 > m then d + x + 1 else m, false, false)
    {
      BracketsScan(open, text, close, x, d, m);
    }
    forall d: int, m: int, k: nat | d <= m && k <= |whole|
      ensures d <= ScanAll(Scan(d, m, false, false), whole[..k]).depth
    {
      if k == |whole| {
        assert whole[..k] == whole;
        BracketsScan(open, text, close, x, d, m);
      } else if k > 0 {
        BracketsPrefix(open, text, close, x, d, m, k);
      }
    }
    forall k: nat | 0 < k <= |text| + 1
      ensures ScanAll(START, whole[..k]).depth > 0
    {
      BracketsPrefix(open, text, close, x, 0, 0, k);
    }
  }

  /** Inside a string nothing changes the depth and every unit ends where it began. */
  lemma {:induction false} UnitsStayInside(units: seq<Unit>, s: Scan, k: nat)
    requires forall u :: u in units ==> ValidUnit(u)
    requires s.inString && !s.escaped && k <= |PrintUnits(units)|
    ensures ScanAll(s, PrintUnits(units)) == s
    ensures ScanAll(s, PrintUnits(units)[..k]).depth == s.depth
  {
    if units == [] {
    } else {
      var first, rest := PrintUnit(units[0]), PrintUnits(units[1..]);
      UnitStaysInside(units[0], s, if k < |first| then k else |first|);
      UnitsStayInside(units[1..], s, if k < |first| then 0 else k - |first|);
      ScanAppend(s, first, rest);
      if k < |first| {
        assert (first + rest)[..k] == first[..k];
      } else {
        assert (first + rest)[..k] == first + rest[..k - |first|];
        assert first[..|first|] == first;
        ScanAppend(s, first, rest[..k - |first|]);
      }
    }
  }

  lemma UnitStaysInside(u: Unit, s: Scan, k: nat)
    requires ValidUnit(u) && s.inString && !s.escaped && k <= |PrintUnit(u)|
    ensures ScanAll(s, PrintUnit(u)) == s
    ensures ScanAll(s, PrintUnit(u)[..k]).depth == s.depth
  {
    var text := PrintUnit(u);
    if k > 0 {
      assert text[..k][1..] == text[1..k];
    }
    if u.Escape? {
      ScanFirst(s, '\\', [u.c]);
      ScanFirst(Next(s, '\\'), u.c, "");
      assert text == ['\\'] + [u.c];
      assert k == 2 ==> text[..k] == text;
    } else if u.Unicode? {
      assert text[1..][1..] == text[2..];
      PlainStaysInside(s, text[2..]);
      if k > 1 {
        assert text[1..k][1..] == text[2..k];
        PlainStaysInside(s, text[2..k]);
      }
    }
  }

  lemma {:induction false} PlainStaysInside(s: Scan, text: string)
    requires s.inString && !s.escaped
    requires forall i :: 0 <= i < |text| ==> text[i] != '"' && text[i] != '\\'
    ensures ScanAll(s, text) == s
    decreases text
  {
    if text == "" {
    } else {
      PlainStaysInside(s, text[1..]);
    }
  }

  lemma TextNests(units: seq<Unit>)
    requires forall u :: u in units ==> ValidUnit(u)
    ensures Nests(PrintText(units), 0)
  {
    var inner, whole := PrintUnits(units), PrintText(units);
    assert whole[1..] == inner + "\"";
    forall d: int, m: int | d <= m
      ensures ScanAll(Scan(d, m, false, false), whole) == Scan(d, m, false, false)
    {
      UnitsStayInside(units, Scan(d, m, true, false), 0);
      ScanAppend(Scan(d, m, true, false), inner, "\"");
      assert "\""[1..] == "";
    }
    forall d: int, m: int, k: nat | d <= m && k <= |whole|
      ensures d <= ScanAll(Scan(d, m, false, false), whole[..k]).depth
    {
      if 0 < k <= |inner| + 1 {
        assert whole[..k][1..] == inner[..k - 1];
        UnitsStayInside(units, Scan(d, m, true, false), k - 1);
      } else if k > 0 {
        assert whole[..k] == whole;
      }
    }
  }

  lemma {:induction false} JsonNests(j: Json)
    requires Valid(j)
    ensures Nests(Print(j), Nesting(j))
    decreases j
  {
    match j {
      case Scalar(text) => NeutralNests(text);
      case Text(units) => TextNests(units);
      case Array(lead, items) =>
        NeutralNests(lead);
        ItemsNest(items);
        NestsConcat(lead, 0, PrintItems(items), ItemsNesting(items));
        BracketsNest('[', lead + PrintItems(items), ']', ItemsNesting(items));
      case Object(lead, members) =>
        NeutralNests(lead);
        MembersNest(members);
        NestsConcat(lead, 0, PrintMembers(members), MembersNesting(members));
        BracketsNest('{', lead + PrintMembers(members), '}', MembersNesting(members));
    }
  }

  lemma {:induction false} ItemNests(item: Item)
    requires ValidItem(item)
    ensures Nests(PrintItem(item), Nesting(item.value))
    decreases item
  {
    NeutralNests(item.before);
    NeutralNests(item.after);
    JsonNests(item.value);
    NestsConcat(item.before, 0, Print(item.value), Nesting(item.value));
    NestsConcat(item.before + Print(item.value), Nesting(item.value), item.after, 0);
  }

  lemma {:induction false} ItemsNest(items: seq<Item>)
    requires forall i :: 0 <= i < |items| ==> ValidItem(items[i])
    ensures Nests(PrintItems(items), ItemsNesting(items))
    decreases items
  {
    if items == [] {
      NeutralNests("");
    } else {
      var comma := if |items| > 1 then "," else "";
      ItemNests(items[0]);
      ItemsNest(items[1..]);
      NeutralNests(comma);
      NestsConcat(comma, 0, PrintItems(items[1..]), ItemsNesting(items[1..]));
      NestsConcat(PrintItem(items[0]), Nesting(items[0].value), comma + PrintItems(items[1..]), ItemsNesting(items[1..]));
    }
  }

  lemma {:induction false} MembersNest(members: seq<Member>)
    requires forall i :: 0 <= i < |members| ==> ValidMember(members[i])
    ensures Nests(PrintMembers(members), MembersNesting(members))
    decreases members
  {
    if members == [] {
      NeutralNests("");
    } else {
      var m, comma := members[0], if |members| > 1 then "," else "";
      var rest, x, y := PrintMembers(members[1..]), Nesting(m.item.value), MembersNesting(members[1..]);
      NeutralNests(m.before);
      TextNests(m.key);
      NestsConcat(m.before, 0, PrintText(m.key), 0);
      NeutralNests(m.colon + ":");
      ItemNests(m.item);
      NestsConcat(m.colon + ":", 0, PrintItem(m.item), x);
      NestsConcat(m.before + PrintText(m.key), 0, (m.colon + ":") + PrintItem(m.item), x);
      MembersNest(members[1..]);
      NeutralNests(comma);
      NestsConcat(comma, 0, rest, y);
      NestsConcat((m.before + PrintText(m.key)) + ((m.colon + ":") + PrintItem(m.item)), x, comma + rest, y);
    }
  }

  /** The scanner's answer for a JSON text, whitespace and every kind of escape included, is
      the nesting of the value, and it ends where it started. */
  lemma DepthIsNesting(before: string, j: Json, after: string)
    requires Whitespace(before) && Valid(j) && Whitespace(after)
    ensures ScanAll(START, before + Print(j) + after) == Scan(0, Nesting(j), false, false)
  {
    ItemNests(Item(before, j, after));
    assert PrintItem(Item(before, j, after)) == before + Print(j) + after;
  }
}
