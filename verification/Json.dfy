/**
 JSON as Python's json module reads and writes it (RFC 8259): json.loads, and json.dumps with
 ensure_ascii=False, separators=(",", ":") and sort_keys=True.

 A dict is kept as its key-sorted member list, so two dicts are equal exactly when their lists are.
 Conversion between decimal text and binary floating point is a parameter (Floats), never an assumption.
 */
module Json {
  import opened Option
  import opened Text

  datatype Json =
    | Null
    | Bool(b: bool)
    | Int(n: int)
    | Float(shown: string)
    | String(s: string)
    | Array(items: seq<Json>)
    | Object(members: seq<Member>)

  datatype Member = Member(key: string, value: Json)

  // shown: what json.dumps prints for the float a literal denotes; equalsInt: whether that float equals an int;
  // text: what str() gives for it.
  datatype Floats = Floats(shown: string -> string, equalsInt: (string, int) -> bool, text: string -> string)

  // ---------------------------------------------------------------- members

  // dict assignment: replace the value of a present key, otherwise add it in key order.
  function Put(ms: seq<Member>, key: string, value: Json): seq<Member> {
    if ms == [] then [Member(key, value)]
    else if key == ms[0].key then [Member(key, value)] + ms[1..]
    else if Less(key, ms[0].key) then [Member(key, value)] + ms
    else [ms[0]] + Put(ms[1..], key, value)
  }

  function Get(ms: seq<Member>, key: string): Option<Json> {
    if ms == [] then None else if ms[0].key == key then Some(ms[0].value) else Get(ms[1..], key)
  }

  function Keys(ms: seq<Member>): (r: seq<string>)
    ensures |r| == |ms|
    ensures forall i :: 0 <= i < |ms| ==> r[i] == ms[i].key
  {
    seq(|ms|, i requires 0 <= i < |ms| => ms[i].key)
  }

  lemma {:induction false} PutLast(ms: seq<Member>, key: string, value: Json)
    requires forall i :: 0 <= i < |ms| ==> Less(ms[i].key, key)
    ensures Put(ms, key, value) == ms + [Member(key, value)]
  {
    if ms != [] {
      if Less(key, ms[0].key) {
        LessTransitive(key, ms[0].key, key);
      }
      LessIrreflexive(key);
      PutLast(ms[1..], key, value);
      assert ms == [ms[0]] + ms[1..];
    }
  }

  lemma {:induction false} GetAt(ms: seq<Member>, i: nat)
    requires Ascending(Keys(ms)) && i < |ms|
    ensures Get(ms, ms[i].key) == Some(ms[i].value)
  {
    if i > 0 {
      assert Keys(ms)[0] == ms[0].key && Keys(ms)[i] == ms[i].key;
      LessIrreflexive(ms[0].key);
      assert Ascending(Keys(ms[1..])) by {
        assert Keys(ms[1..]) == Keys(ms)[1..];
      }
      GetAt(ms[1..], i - 1);
    }
  }

  // ---------------------------------------------------------------- printing

  function HexDigit(n: int): char
    requires 0 <= n < 16
  {
    if n < 10 then '0' + n as char else 'a' + (n - 10) as char
  }

  function EscapeChar(c: char): string {
    if c == '\"' then "\\\""
    else if c == '\\' then "\\\\"
    else if c == '\n' then "\\n"
    else if c == '\r' then "\\r"
    else if c == '\t' then "\\t"
    else if c as int == 8 then "\\b"
    else if c as int == 12 then "\\f"
    else if c < ' ' then ['\\', 'u', '0', '0', HexDigit(c as int / 16), HexDigit(c as int % 16)]
    else [c]
  }

  function Escape(s: string): string {
    if s == "" then "" else EscapeChar(s[0]) + Escape(s[1..])
  }

  function Digits(n: nat): string {
    if n < 10 then ['0' + n as char] else Digits(n / 10) + ['0' + (n % 10) as char]
  }

  function PrintInt(n: int): string {
    if n < 0 then "-" + Digits(-n) else Digits(n)
  }

  function Quote(s: string): string {
    "\"" + Escape(s) + "\""
  }

  function Print(j: Json): string
    decreases j, 0
  {
    match j
    case Null => "null"
    case Bool(b) => if b then "true" else "false"
    case Int(n) => PrintInt(n)
    case Float(shown) => shown
    case String(s) => Quote(s)
    case Array(items) => if items == [] then "[]" else "[" + PrintItems(items)
    case Object(members) => if members == [] then "{}" else "{" + PrintMembers(members)
  }

  // Items and the closing bracket.
  function PrintItems(items: seq<Json>): string
    requires items != []
    decreases items, 1
  {
    Print(items[0]) + if |items| == 1 then "]" else "," + PrintItems(items[1..])
  }

  function PrintMembers(members: seq<Member>): string
    requires members != []
    decreases members, 1
  {
    Quote(members[0].key) + ":" + Print(members[0].value) + if |members| == 1 then "}"
        else "," + PrintMembers(members[1..])
  }

  // Characters that are printed as they are.
  predicate Plain(s: string) {
    forall i :: 0 <= i < |s| ==> s[i] >= ' ' && s[i] != '\"' && s[i] != '\\'
  }

  lemma {:induction false} PlainEscape(s: string)
    requires Plain(s)
    ensures Escape(s) == s
  {
    if s != "" {
      PlainEscape(s[1..]);
    }
  }

  // All others are escaped: five control characters by a letter, the rest by two lower-case hexadecimal digits.
  lemma EscapedChar(c: char)
    ensures var e := EscapeChar(c);
            match c as int
            case 8 => e == "\\b"
            case 9 => e == "\\t"
            case 10 => e == "\\n"
            case 12 => e == "\\f"
            case 13 => e == "\\r"
            case 34 => e == "\\\""
            case 92 => e == "\\\\"
            case _ =>
              if c >= ' ' then e == [c]
              else && |e| == 6 && e[..4] == "\\u00"
                   && (if c as int < 16 then e[4] == '0' else e[4] == '1')
                   && ('0' <= e[5] <= '9' || 'a' <= e[5] <= 'f') && HexValue(e[5]) == Some(c as int % 16)
  {
  }

  // Keys and values with nothing but colons and commas between them, and the closing brace.
  function Joined(keys: seq<string>, values: seq<string>): string
    requires |keys| == |values| > 0
  {
    "\"" + keys[0] + "\":" + values[0] + if |keys| == 1 then "}" else "," + Joined(keys[1..], values[1..])
  }

  lemma {:induction false} MembersJoined(ms: seq<Member>, keys: seq<string>, values: seq<string>)
    requires |ms| == |keys| == |values| > 0
    requires forall i :: 0 <= i < |ms| ==> ms[i].key == keys[i] && Plain(keys[i]) && Print(ms[i].value) == values[i]
    ensures PrintMembers(ms) == Joined(keys, values)
  {
    PlainEscape(keys[0]);
    QuotedColon(keys[0]);
    if |ms| > 1 {
      MembersJoined(ms[1..], keys[1..], values[1..]);
    }
  }

  lemma QuotedColon(key: string)
    ensures ("\"" + key + "\"") + ":" == "\"" + key + "\":"
  {
    assert "\"" + ":" == "\":";
  }

  // ---------------------------------------------------------------- parsing

  predicate IsSpace(c: char) {
    c == ' ' || c == '\t' || c == '\n' || c == '\r'
  }

  function Skip(s: string): (r: string)
    ensures |r| <= |s|
  {
    if s != "" && IsSpace(s[0]) then Skip(s[1..]) else s
  }

  predicate IsDigit(c: char) {
    '0' <= c <= '9'
  }

  predicate AllDigits(s: string) {
    forall i :: 0 <= i < |s| ==> IsDigit(s[i])
  }

  // How many digits s starts with.
  function DigitRun(s: string): (k: nat)
    ensures k <= |s| && AllDigits(s[..k])
  {
    if s != "" && IsDigit(s[0]) then 1 + DigitRun(s[1..]) else 0
  }

  function Value(digits: string): nat
    requires AllDigits(digits)
  {
    if digits == "" then 0
    else
      assert IsDigit(digits[|digits| - 1]);
      10 * Value(digits[..|digits| - 1]) + (digits[|digits| - 1] as int - '0' as int)
  }

  function HexValue(c: char): Option<nat> {
    if '0' <= c <= '9' then Some(c as int - '0' as int)
    else if 'a' <= c <= 'f' then Some(c as int - 'a' as int + 10)
    else if 'A' <= c <= 'F' then Some(c as int - 'A' as int + 10)
    else None
  }

  function Hex4(s: string): (r: Option<nat>)
    requires |s| >= 4
    ensures r.Some? ==> r.value < 0x1_0000
  {
    match (HexValue(s[0]), HexValue(s[1]), HexValue(s[2]), HexValue(s[3]))
    case (Some(a), Some(b), Some(c), Some(d)) =>
      if a < 16 && b < 16 && c < 16 && d < 16 then Some(((a * 16 + b) * 16 + c) * 16 + d) else None
    case _ => None
  }

  // The character a \u escape denotes and the number of characters after "\u" it takes.  A lone surrogate cannot be
  // re-encoded as UTF-8, which every caller here goes on to do, so it is refused already.
  function UnicodeEscape(s: string): (r: Option<(char, nat)>)
    ensures r.Some? ==> r.value.1 <= |s|
  {
    if |s| < 4 || Hex4(s).None? then None
    else
      var n := Hex4(s).value;
      if 0xD800 <= n < 0xDC00 then
        if |s| >= 10 && s[4] == '\\' && s[5] == 'u' && Hex4(s[6..]).Some? && 0xDC00 <= Hex4(s[6..]).value < 0xE000 then
          Some(((0x1_0000 + (n - 0xD800) * 1024 + (Hex4(s[6..]).value - 0xDC00)) as char, 10))
        else None
      else if 0xDC00 <= n < 0xE000 then None
      else Some((n as char, 4))
  }

  function SimpleEscape(c: char): Option<char> {
    match c
    case '\"' => Some('\"')
    case '\\' => Some('\\')
    case '/' => Some('/')
    case 'b' => Some(8 as char)
    case 'f' => Some(12 as char)
    case 'n' => Some('\n')
    case 'r' => Some('\r')
    case 't' => Some('\t')
    case _ => None
  }

  // One possibly escaped character at the front of s, and its length.
  function StringChar(s: string): (r: Option<(char, nat)>)
    requires s != ""
    ensures r.Some? ==> 1 <= r.value.1 <= |s|
  {
    if s[0] == '\\' then
      if |s| < 2 then None
      else if s[1] == 'u' then
        match UnicodeEscape(s[2..])
        case None => None
        case Some((c, k)) => Some((c, k + 2))
      else
        match SimpleEscape(s[1])
        case None => None
        case Some(c) => Some((c, 2))
    else if s[0] < ' ' then None
    else Some((s[0], 1))
  }

  // The string whose opening quote precedes s, and what follows its closing quote.
  function ParseString(s: string): (r: Option<(string, string)>)
    ensures r.Some? ==> |r.value.1| < |s|
    decreases |s|
  {
    if s == "" then None
    else if s[0] == '\"' then Some(("", s[1..]))
    else
      match StringChar(s)
      case None => None
      case Some((c, k)) =>
        match ParseString(s[k..])
        case None => None
        case Some((rest, tail)) => Some(([c] + rest, tail))
  }

  // Length of the fraction and exponent part at the front of s; zero when there is none.
  function FractionLength(s: string): (k: nat)
    ensures k <= |s|
  {
    var frac := if |s| >= 2 && s[0] == '.' && DigitRun(s[1..]) > 0 then 1 + DigitRun(s[1..]) else 0;
    var t := s[frac..];
    var sign := if |t| >= 2 && (t[0] == 'e' || t[0] == 'E') && (t[1] == '+' || t[1] == '-') then 2
                else if |t| >= 1 && (t[0] == 'e' || t[0] == 'E') then 1 else 0;
    if sign > 0 && DigitRun(t[sign..]) > 0 then frac + sign + DigitRun(t[sign..]) else frac
  }

  function ParseNumber(f: Floats, s: string): (r: Option<(Json, string)>)
    ensures r.Some? ==> |r.value.1| < |s|
  {
    var sign := if s != "" && s[0] == '-' then 1 else 0;
    var run := DigitRun(s[sign..]);
    if run == 0 then None
    else
      assert AllDigits(s[sign..][..run]) && s[sign..][0] == s[sign];
      var digits := if s[sign] == '0' then 1 else run;
      assert s[sign..sign + digits] == s[sign..][..run][..digits];
      Some(FinishNumber(f, s, sign, sign + digits))
  }

  // The integer part of the number is s[sign..stop].
  function FinishNumber(f: Floats, s: string, sign: nat, stop: nat): (r: (Json, string))
    requires sign < stop <= |s| && AllDigits(s[sign..stop])
    ensures |r.1| < |s|
  {
    var more := FractionLength(s[stop..]);
    if more > 0 then (Float(f.shown(s[..stop + more])), s[stop + more..])
    else (Int(Signed(sign, Value(s[sign..stop]))), s[stop..])
  }

  function Signed(sign: nat, n: int): int {
    if sign == 1 then -n else n
  }

  // A quoted key, a colon, and the spaces around them.
  function ParseKey(s: string): (r: Option<(string, string)>)
    ensures r.Some? ==> |r.value.1| < |s|
  {
    if s == "" || s[0] != '\"' then None
    else
      match ParseString(s[1..])
      case None => None
      case Some((key, rest)) =>
        var colon := Skip(rest);
        if colon == "" || colon[0] != ':' then None else Some((key, Skip(colon[1..])))
  }

  function ParseScalar(f: Floats, s: string): (r: Option<(Json, string)>)
    ensures r.Some? ==> |r.value.1| < |s|
  {
    if "null" <= s then Some((Null, s[4..]))
    else if "true" <= s then Some((Bool(true), s[4..]))
    else if "false" <= s then Some((Bool(false), s[5..]))
    else if "NaN" <= s then Some((Float("NaN"), s[3..]))
    else if "Infinity" <= s then Some((Float("Infinity"), s[8..]))
    else if "-Infinity" <= s then Some((Float("-Infinity"), s[9..]))
    else ParseNumber(f, s)
  }

  function ParseValue(f: Floats, s: string): (r: Option<(Json, string)>)
    ensures r.Some? ==> |r.value.1| < |s|
    decreases |s|, 1
  {
    if s == "" then None
    else if s[0] == '\"' then
      match ParseString(s[1..])
      case None => None
      case Some((text, rest)) => Some((String(text), rest))
    else if s[0] == '{' then
      var t := Skip(s[1..]);
      if t != "" && t[0] == '}' then Some((Object([]), t[1..])) else ParseMembers(f, t, [])
    else if s[0] == '[' then
      var t := Skip(s[1..]);
      if t != "" && t[0] == ']' then Some((Array([]), t[1..])) else ParseItems(f, t, [])
    else ParseScalar(f, s)
  }

  function ParseItems(f: Floats, s: string, done: seq<Json>): (r: Option<(Json, string)>)
    ensures r.Some? ==> |r.value.1| < |s|
    decreases |s|, 2
  {
    match ParseValue(f, s)
    case None => None
    case Some((v, rest)) =>
      var t := Skip(rest);
      if t == "" then None
      else if t[0] == ']' then Some((Array(done + [v]), t[1..]))
      else if t[0] == ',' then ParseItems(f, Skip(t[1..]), done + [v])
      else None
  }

  function ParseMembers(f: Floats, s: string, done: seq<Member>): (r: Option<(Json, string)>)
    ensures r.Some? ==> |r.value.1| < |s|
    decreases |s|, 2
  {
    match ParseKey(s)
    case None => None
    case Some((key, afterColon)) =>
      match ParseValue(f, afterColon)
      case None => None
      case Some((v, rest)) =>
        var t := Skip(rest);
        if t == "" then None
        else if t[0] == '}' then Some((Object(Put(done, key, v)), t[1..]))
        else if t[0] == ',' then ParseMembers(f, Skip(t[1..]), Put(done, key, v))
        else None
  }

  // json.loads
  function Loads(f: Floats, s: string): Option<Json> {
    match ParseValue(f, Skip(s))
    case None => None
    case Some((j, rest)) => if Skip(rest) == "" then Some(j) else None
  }

  // ---------------------------------------------------------------- round trip

  // A document without floats whose dicts are in key order.
  ghost predicate Canonical(j: Json)
    decreases j
  {
    match j
    case Float(_) => false
    case Array(items) => forall i :: 0 <= i < |items| ==> Canonical(items[i])
    case Object(members) =>
      && Ascending(Keys(members))
      && forall i :: 0 <= i < |members| ==> Canonical(members[i].value)
    case _ => true
  }

  lemma EscapedCharParses(c: char, rest: string)
    ensures StringChar(EscapeChar(c) + rest) == Some((c, |EscapeChar(c)|))
    ensures (EscapeChar(c) + rest)[0] != '\"'
  {
    var e := EscapeChar(c);
    if c < ' ' && |e| == 6 {
      var s := e + rest;
      assert s[2..][..4] == [s[2], s[3], s[4], s[5]];
      assert HexValue(HexDigit(c as int / 16)) == Some(c as int / 16);
      assert HexValue(HexDigit(c as int % 16)) == Some(c as int % 16);
      assert Hex4(s[2..]) == Some(c as int);
    }
  }

  lemma StringStep(s: string, c: char, k: nat, more: string, rest: string)
    requires s != "" && s[0] != '\"' && StringChar(s) == Some((c, k)) && 1 <= k <= |s|
    requires ParseString(s[k..]) == Some((more, rest))
    ensures ParseString(s) == Some(([c] + more, rest))
  {
  }

  lemma {:induction false} QuotedParses(s: string, rest: string)
    ensures ParseString(Escape(s) + ("\"" + rest)) == Some((s, rest))
  {
    if s == "" {
      assert Escape(s) + ("\"" + rest) == "\"" + rest;
    } else {
      QuotedParses(s[1..], rest);
      EscapedFirst(EscapeChar(s[0]), s[0], Escape(s[1..]), "\"" + rest, s[1..], rest);
      Regroup(EscapeChar(s[0]), Escape(s[1..]), "\"" + rest, "", "");
      assert s == [s[0]] + s[1..];
    }
  }

  lemma EscapedFirst(e: string, c: char, tail: string, more: string, s: string, rest: string)
    requires e == EscapeChar(c) && ParseString(tail + more) == Some((s, rest))
    ensures ParseString(e + (tail + more)) == Some(([c] + s, rest))
  {
    EscapedCharParses(c, tail + more);
    assert (e + (tail + more))[|e|..] == tail + more;
    StringStep(e + (tail + more), c, |e|, s, rest);
  }

  lemma {:induction false} DigitsParse(n: nat)
    ensures Digits(n) != "" && AllDigits(Digits(n))
    ensures Value(Digits(n)) == n
    ensures Digits(n)[0] == '0' <==> n == 0
  {
    var d := Digits(n);
    if n < 10 {
      assert d[..0] == "";
    } else {
      DigitsParse(n / 10);
      assert d[..|d| - 1] == Digits(n / 10);
    }
  }

  // A character that cannot continue a number.
  predicate EndsNumber(s: string) {
    s == "" || !(IsDigit(s[0]) || s[0] == '.' || s[0] == 'e' || s[0] == 'E')
  }

  lemma {:induction false} DigitRunStops(d: string, rest: string)
    requires AllDigits(d) && EndsNumber(rest)
    ensures DigitRun(d + rest) == |d|
  {
    if d == "" {
      assert d + rest == rest;
    } else {
      assert (d + rest)[1..] == d[1..] + rest;
      DigitRunStops(d[1..], rest);
    }
  }

  lemma NoFraction(rest: string)
    requires EndsNumber(rest)
    ensures FractionLength(rest) == 0
  {
    assert rest[0..] == rest;
  }

  lemma FinishIntParses(f: Floats, s: string, sign: nat, d: string, rest: string)
    requires sign < sign + |d| <= |s| && AllDigits(d) && EndsNumber(rest)
    requires s[sign..sign + |d|] == d && s[sign + |d|..] == rest
    ensures FinishNumber(f, s, sign, sign + |d|) == (Int(Signed(sign, Value(d))), rest)
  {
    NoFraction(rest);
  }

  lemma SliceBehind(s: string, from: nat, d: string, rest: string)
    requires from <= |s| && s[from..] == d + rest && d != ""
    ensures from + |d| <= |s| && s[from] == d[0]
    ensures s[from..from + |d|] == d && s[from + |d|..] == rest
  {
    assert |s| == from + |d| + |rest|;
    forall i | 0 <= i < |d| ensures s[from + i] == d[i] {
      assert s[from..][i] == (d + rest)[i];
    }
    forall i | 0 <= i < |rest| ensures s[from + |d| + i] == rest[i] {
      assert s[from..][|d| + i] == (d + rest)[|d| + i];
    }
  }

  // The digits of a number, behind its sign if it has one.
  lemma DigitsFinish(f: Floats, s: string, sign: nat, m: nat, rest: string)
    requires EndsNumber(rest) && sign <= |s| && s[sign..] == Digits(m) + rest
    requires sign == if s != "" && s[0] == '-' then 1 else 0
    ensures ParseNumber(f, s) == Some((Int(Signed(sign, m)), rest))
  {
    var d := Digits(m);
    DigitsParse(m);
    DigitRunStops(d, rest);
    SliceBehind(s, sign, d, rest);
    FinishIntParses(f, s, sign, d, rest);
    if m == 0 {
      assert |d| == 1;
    }
  }

  lemma NonNegativeParses(f: Floats, n: nat, rest: string)
    requires EndsNumber(rest)
    ensures ParseNumber(f, Digits(n) + rest) == Some((Int(n), rest))
  {
    DigitsParse(n);
    assert (Digits(n) + rest)[0] == Digits(n)[0];
    DigitsFinish(f, Digits(n) + rest, 0, n, rest);
  }

  lemma NegativeParses(f: Floats, n: nat, rest: string)
    requires EndsNumber(rest)
    ensures ParseNumber(f, "-" + Digits(n) + rest) == Some((Int(Signed(1, n)), rest))
  {
    var s := "-" + Digits(n) + rest;
    assert s[1..] == Digits(n) + rest;
    DigitsFinish(f, s, 1, n, rest);
  }

  lemma IntParses(f: Floats, n: int, rest: string)
    requires EndsNumber(rest)
    ensures ParseNumber(f, PrintInt(n) + rest) == Some((Int(n), rest))
  {
    if n < 0 {
      NegativeParses(f, -n, rest);
    } else {
      NonNegativeParses(f, n, rest);
    }
  }

  lemma IntStart(n: int, rest: string)
    ensures PrintInt(n) != ""
    ensures var s := PrintInt(n) + rest;
            && (s[0] == '-' || IsDigit(s[0]))
            && (s[0] == '-' ==> |s| >= 2 && IsDigit(s[1]))
  {
    DigitsParse(if n < 0 then -n else n);
  }

  lemma PrintStart(j: Json, rest: string)
    requires Canonical(j)
    ensures Print(j) != ""
    ensures var s := Print(j) + rest; Skip(s) == s && s[0] != ']' && s[0] != '}'
  {
    if j.Int? {
      IntStart(j.n, rest);
    }
  }

  lemma {:induction false} ParsePrinted(f: Floats, j: Json, rest: string)
    requires Canonical(j) && EndsNumber(rest)
    ensures ParseValue(f, Print(j) + rest) == Some((j, rest))
    decreases j, 3
  {
    match j
    case String(text) =>
      ParsePrintedString(f, text, rest);
    case Array(items) =>
      ParsePrintedArray(f, items, rest);
    case Object(members) =>
      ParsePrintedObject(f, members, rest);
    case Int(n) =>
      IntStart(n, rest);
      ScalarValue(f, PrintInt(n) + rest);
      ParsePrintedInt(f, n, rest);
    case _ =>
      WordParses(f, rest);
      ScalarValue(f, Print(j) + rest);
  }

  lemma {:induction false} ParsePrintedArray(f: Floats, items: seq<Json>, rest: string)
    requires Canonical(Array(items)) && EndsNumber(rest)
    ensures ParseValue(f, Print(Array(items)) + rest) == Some((Array(items), rest))
    decreases items, 2
  {
    if items == [] {
      ParseEmpty(f, rest);
    } else {
      ItemsStart(items, rest);
      assert [] + items == items;
      ParsePrintedItems(f, items, [], rest);
      ParseBracketed(f, '[', PrintItems(items), rest);
    }
  }

  lemma {:induction false} ParsePrintedObject(f: Floats, members: seq<Member>, rest: string)
    requires Canonical(Object(members)) && EndsNumber(rest)
    ensures ParseValue(f, Print(Object(members)) + rest) == Some((Object(members), rest))
    decreases members, 2
  {
    if members == [] {
      ParseEmpty(f, rest);
    } else {
      assert [] + members == members;
      ParsePrintedMembers(f, members, [], rest);
      ParseBracketed(f, '{', PrintMembers(members), rest);
    }
  }

  lemma ParsePrintedInt(f: Floats, n: int, rest: string)
    requires EndsNumber(rest)
    ensures ParseScalar(f, PrintInt(n) + rest) == Some((Int(n), rest))
  {
    IntStart(n, rest);
    NotAWord(f, PrintInt(n) + rest);
    IntParses(f, n, rest);
  }

  lemma ScalarValue(f: Floats, s: string)
    requires s != "" && s[0] != '\"' && s[0] != '{' && s[0] != '['
    ensures ParseValue(f, s) == ParseScalar(f, s)
  {
  }

  lemma WordParses(f: Floats, rest: string)
    ensures ParseScalar(f, "null" + rest) == Some((Null, rest))
    ensures ParseScalar(f, "true" + rest) == Some((Bool(true), rest))
    ensures ParseScalar(f, "false" + rest) == Some((Bool(false), rest))
  {
    var t, u := "true" + rest, "false" + rest;
    assert ("null" + rest)[4..] == rest && t[4..] == rest && u[5..] == rest;
    assert t[0] == 't' && !("null" <= t) && "true" <= t;
    assert u[0] == 'f' && !("null" <= u) && !("true" <= u) && "false" <= u;
  }

  // What starts like an integer is none of the literal words.
  lemma NotAWord(f: Floats, s: string)
    requires s != "" && (s[0] == '-' || IsDigit(s[0])) && (s[0] == '-' ==> |s| >= 2 && IsDigit(s[1]))
    ensures ParseScalar(f, s) == ParseNumber(f, s)
  {
    assert !("null" <= s) && !("true" <= s) && !("false" <= s) && !("NaN" <= s) && !("Infinity" <= s);
    assert !("-Infinity" <= s);
  }

  lemma ParsePrintedString(f: Floats, text: string, rest: string)
    ensures ParseValue(f, Quote(text) + rest) == Some((String(text), rest))
  {
    QuotedParses(text, rest);
    QuoteText(text, rest);
  }

  lemma QuoteText(text: string, rest: string)
    ensures var s := Quote(text) + rest;
            s[0] == '\"' && s[1..] == Escape(text) + ("\"" + rest) && Skip(s) == s
  {
    assert Quote(text) + rest == "\"" + (Escape(text) + ("\"" + rest));
  }

  lemma ParseEmpty(f: Floats, rest: string)
    ensures ParseValue(f, "[]" + rest) == Some((Array([]), rest))
    ensures ParseValue(f, "{}" + rest) == Some((Object([]), rest))
  {
    assert ("[]" + rest)[1..] == "]" + rest;
    assert ("{}" + rest)[1..] == "}" + rest;
  }

  // A non-empty array or object is its opening bracket and the list after it.
  lemma ParseBracketed(f: Floats, open: char, list: string, rest: string)
    requires list != "" && Skip(list + rest) == list + rest && list[0] != ']' && list[0] != '}'
    ensures open == '[' ==> ParseValue(f, ([open] + list) + rest) == ParseItems(f, list + rest, [])
    ensures open == '{' ==> ParseValue(f, ([open] + list) + rest) == ParseMembers(f, list + rest, [])
  {
    assert (([open] + list) + rest)[1..] == list + rest;
  }

  // What follows the first item.
  function ItemsTail(items: seq<Json>): string
    requires items != []
  {
    if |items| == 1 then "]" else "," + PrintItems(items[1..])
  }

  lemma ItemsTailText(items: seq<Json>, rest: string)
    requires items != []
    ensures var t := ItemsTail(items) + rest;
            && (t[0] == ']' <==> |items| == 1)
            && (t[0] == ',' <==> |items| > 1)
            && t[1..] == (if |items| == 1 then rest else PrintItems(items[1..]) + rest)
  {
    if |items| == 1 {
      HeadAndRest(']', "", rest);
    } else {
      HeadAndRest(',', PrintItems(items[1..]), rest);
    }
  }

  lemma HeadAndRest(c: char, text: string, rest: string)
    ensures (([c] + text) + rest)[0] == c && (([c] + text) + rest)[1..] == text + rest
  {
  }

  // A list of members starts with a quote.
  lemma QuoteFirst(members: seq<Member>)
    requires members != []
    ensures PrintMembers(members) != "" && PrintMembers(members)[0] == '\"'
  {
    HeadAndRest('\"', Escape(members[0].key), "\"");
  }

  lemma ItemsText(items: seq<Json>, rest: string)
    requires items != []
    ensures PrintItems(items) + rest == Print(items[0]) + (ItemsTail(items) + rest)
  {
    Regroup(Print(items[0]), ItemsTail(items), rest, "", "");
  }

  lemma ItemsStart(items: seq<Json>, rest: string)
    requires items != [] && Canonical(items[0])
    ensures PrintItems(items) != ""
    ensures var s := PrintItems(items) + rest; Skip(s) == s && s[0] != ']' && s[0] != '}'
  {
    ItemsText(items, rest);
    PrintStart(items[0], ItemsTail(items) + rest);
  }

  lemma ParseOneItem(f: Floats, s: string, v: Json, t: string, done: seq<Json>)
    requires t != "" && (t[0] == ']' || (t[0] == ',' && Skip(t[1..]) == t[1..]))
    requires ParseValue(f, s) == Some((v, t))
    ensures ParseItems(f, s, done) ==
            if t[0] == ']' then Some((Array(done + [v]), t[1..])) else ParseItems(f, t[1..], done + [v])
  {
  }

  lemma {:induction false} ParsePrintedItems(f: Floats, items: seq<Json>, done: seq<Json>, rest: string)
    requires items != [] && forall i :: 0 <= i < |items| ==> Canonical(items[i])
    ensures ParseItems(f, PrintItems(items) + rest, done) == Some((Array(done + items), rest))
    decreases items, 1
  {
    var t := ItemsTail(items) + rest;
    ItemsText(items, rest);
    ItemsTailText(items, rest);
    ParsePrinted(f, items[0], t);
    MoveOne(done, items);
    if |items| > 1 {
      ItemsStart(items[1..], rest);
      ParsePrintedItems(f, items[1..], done + [items[0]], rest);
    }
    ParseOneItem(f, PrintItems(items) + rest, items[0], t, done);
  }

  // What follows the first member.
  function MembersTail(members: seq<Member>): string
    requires members != []
  {
    if |members| == 1 then "}" else "," + PrintMembers(members[1..])
  }

  lemma MembersTailText(members: seq<Member>, rest: string)
    requires members != []
    ensures var t := MembersTail(members) + rest;
            && (t[0] == '}' || (t[0] == ',' && |t| > 1 && t[1] == '\"'))
            && t[1..] == (if |members| == 1 then rest else PrintMembers(members[1..]) + rest)
            && (t[0] == '}' <==> |members| == 1)
  {
    if |members| == 1 {
      HeadAndRest('}', "", rest);
    } else {
      QuoteFirst(members[1..]);
      HeadAndRest(',', PrintMembers(members[1..]), rest);
    }
  }

  lemma MembersText(members: seq<Member>, rest: string)
    requires members != [] && Canonical(members[0].value)
    ensures var value := Print(members[0].value) + (MembersTail(members) + rest);
            ParseKey(PrintMembers(members) + rest) == Some((members[0].key, value))
  {
    var m := members[0];
    var value := Print(m.value) + (MembersTail(members) + rest);
    PrintStart(m.value, MembersTail(members) + rest);
    KeyParses(m.key, value);
    Regroup(Quote(m.key), ":", Print(m.value), MembersTail(members), rest);
  }

  lemma Regroup<T>(a: seq<T>, b: seq<T>, c: seq<T>, d: seq<T>, e: seq<T>)
    ensures a + b + c + d + e == a + (b + (c + (d + e)))
    ensures a + b + c == a + (b + c) && a + b + c + d == a + (b + c + d)
  {
  }

  lemma {:induction false} ParsePrintedMembers(f: Floats, members: seq<Member>, done: seq<Member>, rest: string)
    requires members != [] && Ascending(Keys(done + members))
    requires forall i :: 0 <= i < |members| ==> Canonical(members[i].value)
    ensures ParseMembers(f, PrintMembers(members) + rest, done) == Some((Object(done + members), rest))
    decreases members, 1
  {
    var m, t := members[0], MembersTail(members) + rest;
    MembersText(members, rest);
    MembersTailText(members, rest);
    ParsePrinted(f, m.value, t);
    PutNext(done, members);
    ParseOneMember(f, PrintMembers(members) + rest, m, Print(m.value) + t, t, done);
    MoveOne(done, members);
    if |members| > 1 {
      ParsePrintedMembers(f, members[1..], done + [m], rest);
    }
  }

  lemma KeyParses(key: string, rest: string)
    requires Skip(rest) == rest
    ensures ParseKey(Quote(key) + (":" + rest)) == Some((key, rest))
  {
    var s := Quote(key) + (":" + rest);
    assert s[1..] == Escape(key) + ("\"" + (":" + rest));
    QuotedParses(key, ":" + rest);
    assert (":" + rest)[1..] == rest;
  }

  // One member is read, stored, and followed by the closing brace or a comma and another member.
  lemma ParseOneMember(f: Floats, s: string, m: Member, value: string, t: string, done: seq<Member>)
    requires t != "" && (t[0] == '}' || (t[0] == ',' && |t| > 1 && t[1] == '\"'))
    requires ParseKey(s) == Some((m.key, value))
    requires ParseValue(f, value) == Some((m.value, t))
    ensures ParseMembers(f, s, done) ==
            if t[0] == '}' then Some((Object(Put(done, m.key, m.value)), t[1..]))
            else ParseMembers(f, t[1..], Put(done, m.key, m.value))
  {
    assert Skip(t) == t;
    if t[0] == ',' {
      assert t[1..][0] == t[1];
      assert Skip(t[1..]) == t[1..];
    }
  }

  lemma MoveOne<T>(done: seq<T>, todo: seq<T>)
    requires todo != []
    ensures done + todo == (done + [todo[0]]) + todo[1..]
    ensures |todo| == 1 ==> done + todo == done + [todo[0]]
  {
  }

  lemma PutNext(done: seq<Member>, members: seq<Member>)
    requires members != [] && Ascending(Keys(done + members))
    ensures Put(done, members[0].key, members[0].value) == done + [members[0]]
  {
    var keys := Keys(done + members);
    forall i | 0 <= i < |done| ensures Less(done[i].key, members[0].key) {
      assert keys[i] == done[i].key && keys[|done|] == members[0].key;
    }
    PutLast(done, members[0].key, members[0].value);
  }

  // json.loads undoes json.dumps, also with the newline the canonical form ends in.
  lemma LoadsPrinted(f: Floats, j: Json)
    requires Canonical(j)
    ensures Loads(f, Print(j) + "\n") == Some(j)
  {
    PrintStart(j, "\n");
    ParsePrinted(f, j, "\n");
  }
}
