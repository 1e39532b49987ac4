/** The client-visible identity an idempotency key is bound to: its shapes
    (internal/application/submit.go), its ceilings (internal/store/validation.go) and the
    framing that is hashed (hashInput in internal/store/submission.go). A char is one byte. */
module RetryIdentity {
  import opened Prelude
  import opened JsonDepth

  const MAX_ARGUMENT_BYTES := 4 * 1024 * 1024
  const MAX_ARGUMENT_DEPTH := 64

  // ---------------------------------------------------------------- the identity text

  function HexDigit(n: nat): char
    requires n < 16
  {
    if n < 10 then ('0' as int + n) as char else ('a' as int + n - 10) as char
  }

  /** How the first character of a JSON string is written: the encoder also escapes HTML and
      the line separators, which take three bytes. */
  function EncodeHead(s: string): (Unit, nat)
    requires s != ""
    ensures 0 < EncodeHead(s).1 <= |s|
  {
    var c := s[0];
    if c == '"' || c == '\\' then (Escape(c), 1)
    else if c == '\n' then (Escape('n'), 1)
    else if c == '\r' then (Escape('r'), 1)
    else if c == '\t' then (Escape('t'), 1)
    else if c == '\U{8}' then (Escape('b'), 1)
    else if c == '\U{C}' then (Escape('f'), 1)
    else if c < ' ' || c == '<' || c == '>' || c == '&' then
      (Unicode('0', '0', HexDigit(c as int / 16), HexDigit(c as int % 16)), 1)
    else if LineSeparator(s) then (Unicode('2', '0', '2', if s[2] == '\U{A8}' then '8' else '9'), 3)
    else (Plain(c), 1)
  }

  function EncodeUnits(s: string): seq<Unit>
    decreases |s|
  {
    if s == "" then []
    else
      var (unit, width) := EncodeHead(s);
      [unit] + EncodeUnits(s[width..])
  }

  /** U+2028 or U+2029 in UTF-8. */
  predicate LineSeparator(s: string) {
    |s| >= 3 && s[0] == '\U{E2}' && s[1] == '\U{80}' && (s[2] == '\U{A8}' || s[2] == '\U{A9}')
  }

  /** The `thread_id` field: an absent value is written as null. */
  function ThreadText(thread: string): string {
    if thread == "" then "null" else PrintText(EncodeUnits(thread))
  }

  /** The canonical text of the identity; `thread` is None when the accepted operation could
      not map the thread ID, and then the field is omitted. */
  function IdentityText(arguments: Json, thread: Option<string>): string {
    "{\"arguments\":" + (Print(arguments) + Rest(thread))
  }

  /** What follows the arguments. */
  function Rest(thread: Option<string>): string {
    if thread.None? then "}" else ",\"thread_id\":" + (ThreadText(thread.value) + "}")
  }

  // ---------------------------------------------------------------- the hashed framing

  const FRAME_VERSION := "tama-link/idempotency/v1\0"

  function LowByte(n: nat): char {
    (n % 256) as char
  }

  function BigEndian(n: nat): string {
    [LowByte(n / 0x1000000), LowByte(n / 0x10000), LowByte(n / 0x100), LowByte(n)]
  }

  function Framed(value: string): string {
    BigEndian(|value|) + value
  }

  /** The bytes hashInput feeds to SHA-256; the digest is taken as injective, so these bytes
      stand for it. */
  function HashInput(tool: string, identity: string): string {
    FRAME_VERSION + (Framed(tool) + Framed(identity))
  }

  // ---------------------------------------------------------------- the requests

  /** What the client sent as arguments. */
  datatype Document = NotJson | DuplicateKeys | Canonical(value: Json)

  datatype Request = Request(tool: string, arguments: Document, thread: string)

  ghost predicate ValidRequest(r: Request) {
    (r.arguments.Canonical? ==> Valid(r.arguments.value)) && |r.tool| < 0x1_0000_0000
  }

  function DepthOf(text: string): int {
    ScanAll(START, text).maximum
  }

  /** The bounds canonicalArguments puts on a canonical text. */
  predicate WithinCeilings(text: string) {
    |text| <= MAX_ARGUMENT_BYTES && DepthOf(text) <= MAX_ARGUMENT_DEPTH
  }

  function HashOf(r: Request, thread: Option<string>): Option<string> {
    if !r.arguments.Canonical? then None
    else
      var identity := IdentityText(r.arguments.value, thread);
      if WithinCeilings(identity) then Some(HashInput(r.tool, identity)) else None
  }

  /** The hash a new acceptance stores; `maps` says whether the pinned operation can map the
      client thread ID at that moment. */
  function AcceptedHash(r: Request, maps: bool): Option<string> {
    HashOf(r, if maps then Some(r.thread) else None)
  }

  /** The hashes the read-only path looks for: both shapes, those outside the ceilings skipped. */
  function CandidateHashes(r: Request): set<string> {
    var threaded, base := HashOf(r, Some(r.thread)), HashOf(r, None);
    (if threaded.Some? then {threaded.value} else {}) + (if base.Some? then {base.value} else {})
  }

  // ---------------------------------------------------------------- the texts are unambiguous

  function HexValue(c: char): nat {
    if '0' <= c <= '9' then c as int - '0' as int
    else if 'a' <= c <= 'f' then c as int - 'a' as int + 10
    else 0
  }

  function DecodeHex(h2: char, h3: char): char {
    var code := HexValue(h2) * 16 + HexValue(h3);
    if code < 256 then code as char else ' '
  }

  function DecodeUnit(u: Unit): string {
    match u
    case Plain(c) => [c]
    case Escape(c) =>
      if c == 'n' then "\n" else if c == 'r' then "\r" else if c == 't' then "\t"
      else if c == 'b' then "\U{8}" else if c == 'f' then "\U{C}" else [c]
    case Unicode(h0, _, h2, h3) =>
      if h0 == '2' then ['\U{E2}', '\U{80}', if h3 == '8' then '\U{A8}' else '\U{A9}'] else [DecodeHex(h2, h3)]
  }

  function DecodeUnits(units: seq<Unit>): string {
    if units == [] then "" else DecodeUnit(units[0]) + DecodeUnits(units[1..])
  }

  lemma HexRoundTrip(c: char)
    requires c as int < 256
    ensures DecodeHex(HexDigit(c as int / 16), HexDigit(c as int % 16)) == c
    ensures IsHex(HexDigit(c as int / 16)) && IsHex(HexDigit(c as int % 16))
  {
    var high, low := c as int / 16, c as int % 16;
    assert HexValue(HexDigit(high)) == high && HexValue(HexDigit(low)) == low;
  }

  lemma HeadRoundTrip(s: string)
    requires s != ""
    ensures var (unit, width) := EncodeHead(s); ValidUnit(unit) && DecodeUnit(unit) == s[..width]
  {
    if s[0] < ' ' || s[0] == '<' || s[0] == '>' || s[0] == '&' {
      HexRoundTrip(s[0]);
    }
  }

  lemma {:induction false} EncodeRoundTrip(s: string)
    ensures DecodeUnits(EncodeUnits(s)) == s
    ensures forall u :: u in EncodeUnits(s) ==> ValidUnit(u)
    decreases |s|
  {
    if s == "" {
    } else {
      var (unit, width) := EncodeHead(s);
      HeadRoundTrip(s);
      EncodeRoundTrip(s[width..]);
      assert s[..width] + s[width..] == s;
    }
  }

  lemma UnitsStartAlike(u: Unit, x: string, v: Unit, y: string)
    requires ValidUnit(u) && ValidUnit(v) && PrintUnit(u) + x == PrintUnit(v) + y
    ensures u == v && x == y
  {
    var line := PrintUnit(u) + x;
    assert line[0] == PrintUnit(u)[0] && line[0] == PrintUnit(v)[0];
    if line[0] == '\\' {
      assert line[1] == PrintUnit(u)[1] && line[1] == PrintUnit(v)[1];
      if line[1] == 'u' {
        assert forall i :: 0 <= i < 6 ==> PrintUnit(u)[i] == line[i] && PrintUnit(v)[i] == line[i];
      }
    }
    assert PrintUnit(u) == PrintUnit(v);
    assert x == line[|PrintUnit(u)|..] && y == line[|PrintUnit(v)|..];
  }

  lemma {:induction false} PrintedUnitsAreUnambiguous(u: seq<Unit>, v: seq<Unit>)
    requires (forall x :: x in u ==> ValidUnit(x)) && (forall x :: x in v ==> ValidUnit(x))
    requires PrintUnits(u) == PrintUnits(v)
    ensures u == v
  {
    if u == [] || v == [] {
    } else {
      UnitsStartAlike(u[0], PrintUnits(u[1..]), v[0], PrintUnits(v[1..]));
      PrintedUnitsAreUnambiguous(u[1..], v[1..]);
    }
  }

  lemma ThreadTextIsUnambiguous(a: string, b: string)
    requires ThreadText(a) == ThreadText(b)
    ensures a == b
  {
    assert a != "" ==> ThreadText(a)[0] == '"';
    assert b != "" ==> ThreadText(b)[0] == '"';
    if a != "" && b != "" {
      var u, v := EncodeUnits(a), EncodeUnits(b);
      EncodeRoundTrip(a);
      EncodeRoundTrip(b);
      assert PrintUnits(u) == PrintText(u)[1..|PrintText(u)| - 1];
      assert PrintUnits(v) == PrintText(v)[1..|PrintText(v)| - 1];
      PrintedUnitsAreUnambiguous(u, v);
    }
  }

  /** No comma of a JSON text stands outside its strings, arrays and objects. */
  lemma NoOuterComma(j: Json, k: nat)
    requires Valid(j) && k < |Print(j)|
    ensures ScanAll(START, Print(j)[..k]) == START.(maximum := ScanAll(START, Print(j)[..k]).maximum) ==> Print(j)[k] != ','
  {
    match j {
      case Scalar(text) =>
      case Text(units) =>
        var inner := PrintUnits(units);
        if 0 < k <= |inner| + 1 {
          var before := Print(j)[..k];
          assert before[1..] == inner[..k - 1];
          StringStaysOpen(units, Scan(0, 0, true, false), k - 1);
        }
      case Array(lead, items) =>
        NeutralNests(lead);
        ItemsNest(items);
        NestsConcat(lead, 0, PrintItems(items), ItemsNesting(items));
        BracketsNest('[', lead + PrintItems(items), ']', ItemsNesting(items));
        assert Print(j) == ['['] + (lead + PrintItems(items)) + [']'];
      case Object(lead, members) =>
        NeutralNests(lead);
        MembersNest(members);
        NestsConcat(lead, 0, PrintMembers(members), MembersNesting(members));
        BracketsNest('{', lead + PrintMembers(members), '}', MembersNesting(members));
        assert Print(j) == ['{'] + (lead + PrintMembers(members)) + ['}'];
    }
  }

  lemma {:induction false} StringStaysOpen(units: seq<Unit>, s: Scan, k: nat)
    requires forall u :: u in units ==> ValidUnit(u)
    requires s.inString && !s.escaped && k <= |PrintUnits(units)|
    ensures ScanAll(s, PrintUnits(units)[..k]).inString
  {
    if units == [] {
    } else {
      var first, rest := PrintUnit(units[0]), PrintUnits(units[1..]);
      if k < |first| {
        assert (first + rest)[..k] == first[..k];
        UnitStaysOpen(units[0], s, k);
      } else {
        assert (first + rest)[..k] == first + rest[..k - |first|];
        UnitStaysInside(units[0], s, 0);
        ScanAppend(s, first, rest[..k - |first|]);
        StringStaysOpen(units[1..], s, k - |first|);
      }
    }
  }

  lemma UnitStaysOpen(u: Unit, s: Scan, k: nat)
    requires ValidUnit(u) && s.inString && !s.escaped && k < |PrintUnit(u)|
    ensures ScanAll(s, PrintUnit(u)[..k]).inString
  {
    var text := PrintUnit(u);
    if k > 0 {
      assert text[..k][1..] == text[1..k];
      if k > 1 {
        assert text[1..k][1..] == text[2..k];
        PlainStaysInside(s, text[2..k]);
      }
    }
  }

  lemma RestIsUnambiguous(s: Option<string>, t: Option<string>)
    requires Rest(s) == Rest(t)
    ensures s == t
  {
    assert s.Some? ==> Rest(s)[0] == ',';
    assert t.Some? ==> Rest(t)[0] == ',';
    if s.Some? && t.Some? {
      DropHead(",\"thread_id\":", ThreadText(s.value) + "}", ThreadText(t.value) + "}");
      assert ThreadText(s.value) == (ThreadText(s.value) + "}")[..|ThreadText(s.value)|];
      assert ThreadText(t.value) == (ThreadText(t.value) + "}")[..|ThreadText(t.value)|];
      ThreadTextIsUnambiguous(s.value, t.value);
    }
  }

  lemma DropHead(head: string, x: string, y: string)
    requires head + x == head + y
    ensures x == y
  {
    assert x == (head + x)[|head|..] && y == (head + y)[|head|..];
  }

  /** Two identities with equal text have equal argument texts and an equal thread field. */
  lemma IdentityIsUnambiguous(a: Json, s: Option<string>, b: Json, t: Option<string>)
    requires Valid(a) && Valid(b)
    requires IdentityText(a, s) == IdentityText(b, t)
    ensures Print(a) == Print(b) && s == t
  {
    DropHead("{\"arguments\":", Print(a) + Rest(s), Print(b) + Rest(t));
    ShorterIsImpossible(a, s, b, t);
    ShorterIsImpossible(b, t, a, s);
    SplitAlike(Print(a), Rest(s), Print(b), Rest(t));
    RestIsUnambiguous(s, t);
  }

  lemma SplitAlike(a: string, x: string, b: string, y: string)
    requires a + x == b + y && |a| == |b|
    ensures a == b && x == y
  {
    assert a == (a + x)[..|a|] && b == (b + y)[..|a|];
    assert x == (a + x)[|a|..] && y == (b + y)[|a|..];
  }

  lemma ShorterIsImpossible(a: Json, s: Option<string>, b: Json, t: Option<string>)
    requires Valid(a) && Valid(b)
    requires Print(a) + Rest(s) == Print(b) + Rest(t)
    ensures |Print(a)| >= |Print(b)|
  {
    if |Print(a)| < |Print(b)| {
      var line, k := Print(a) + Rest(s), |Print(a)|;
      assert Print(b) == line[..|Print(b)|];
      assert Print(b)[..k] == Print(a) && Print(b)[k] == Rest(s)[0];
      JsonNests(a);
      ScanOf(Print(a), Nesting(a), 0, 0);
      NoOuterComma(b, k);
    }
  }

  // ---------------------------------------------------------------- the framing is injective

  lemma BaseDigits(n: nat)
    requires n < 0x1_0000_0000
    ensures n == n / 0x1000000 % 256 * 0x1000000 + n / 0x10000 % 256 * 0x10000 + n / 0x100 % 256 * 0x100 + n % 256
  {
    var a := n / 0x100;
    var b := a / 0x100;
    var c := b / 0x100;
    assert b == n / 0x10000 && c == n / 0x1000000;
    assert n == a * 0x100 + n % 256 && a == b * 0x100 + a % 256 && b == c * 0x100 + b % 256;
    assert c % 256 == c;
  }

  lemma ByteOf(m: nat, n: nat)
    requires LowByte(m) == LowByte(n)
    ensures m % 256 == n % 256
  {
    assert LowByte(m) as int == m % 256 && LowByte(n) as int == n % 256;
  }

  lemma BigEndianIsInjective(m: nat, n: nat)
    requires m < 0x1_0000_0000 && n < 0x1_0000_0000 && BigEndian(m) == BigEndian(n)
    ensures m == n
  {
    ByteOf(m / 0x1000000, n / 0x1000000);
    ByteOf(m / 0x10000, n / 0x10000);
    ByteOf(m / 0x100, n / 0x100);
    ByteOf(m, n);
    BaseDigits(m);
    BaseDigits(n);
  }

  lemma FramesSplitAlike(a: string, x: string, b: string, y: string)
    requires |a| < 0x1_0000_0000 && |b| < 0x1_0000_0000 && Framed(a) + x == Framed(b) + y
    ensures a == b && x == y
  {
    var line := Framed(a) + x;
    assert line[..4] == BigEndian(|a|) == BigEndian(|b|);
    BigEndianIsInjective(|a|, |b|);
    SplitAlike(Framed(a), x, Framed(b), y);
    assert a == Framed(a)[4..] && b == Framed(b)[4..];
  }

  lemma HashInputIsInjective(tool: string, identity: string, tool': string, identity': string)
    requires |tool| < 0x1_0000_0000 && |tool'| < 0x1_0000_0000
    requires |identity| < 0x1_0000_0000 && |identity'| < 0x1_0000_0000
    ensures HashInput(tool, identity) == HashInput(tool', identity') <==> tool == tool' && identity == identity'
  {
    if HashInput(tool, identity) == HashInput(tool', identity') {
      DropHead(FRAME_VERSION, Framed(tool) + Framed(identity), Framed(tool') + Framed(identity'));
      FramesSplitAlike(tool, Framed(identity), tool', Framed(identity'));
      assert Framed(identity) + "" == Framed(identity) && Framed(identity') + "" == Framed(identity');
      FramesSplitAlike(identity, "", identity', "");
    }
  }

  // ---------------------------------------------------------------- the decision

  /** Hashes agree exactly when the tool, the canonical arguments and the thread field do. */
  lemma HashesAgree(a: Request, s: Option<string>, b: Request, t: Option<string>)
    requires ValidRequest(a) && ValidRequest(b) && HashOf(a, s).Some?
    ensures HashOf(b, t) == HashOf(a, s) <==>
      a.tool == b.tool && b.arguments.Canonical? && Print(a.arguments.value) == Print(b.arguments.value) && s == t
  {
    if b.arguments.Canonical? {
      var x, y := a.arguments.value, b.arguments.value;
      if HashOf(b, t) == HashOf(a, s) {
        HashInputIsInjective(a.tool, IdentityText(x, s), b.tool, IdentityText(y, t));
        IdentityIsUnambiguous(x, s, y, t);
      }
    }
  }

  /** Whatever the operation could map at acceptance and can map now, a retry names the
      accepted request exactly when tool and canonical arguments are the same and the thread
      ID was not mappable at acceptance or is the same, an absent one counting as a value. A
      candidate that the ceilings skip could not have matched. */
  lemma ExactRetryDecision(accepted: Request, mapped: bool, retry: Request)
    requires ValidRequest(accepted) && ValidRequest(retry)
    requires AcceptedHash(accepted, mapped).Some?
    ensures AcceptedHash(accepted, mapped).value in CandidateHashes(retry) <==>
      && retry.tool == accepted.tool
      && retry.arguments.Canonical? && Print(retry.arguments.value) == Print(accepted.arguments.value)
      && (mapped ==> retry.thread == accepted.thread)
  {
    var thread := if mapped then Some(accepted.thread) else None;
    HashesAgree(accepted, thread, retry, Some(retry.thread));
    HashesAgree(accepted, thread, retry, None);
  }

  /** A process that loses the insert race also looks for its own identity, whatever it can
      map now; that adds no hash, so both paths decide alike. */
  lemma InsertRaceDecidesAlike(retry: Request, maps: bool)
    ensures AcceptedHash(retry, maps).Some? ==>
      CandidateHashes(retry) + {AcceptedHash(retry, maps).value} == CandidateHashes(retry)
  {
  }
}
