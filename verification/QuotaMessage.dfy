/** The rate-limit message, printed in one file and parsed in another
    (apps/api/limits.py, apps/api/api.py). */
module QuotaMessage {
  import opened Common

  // ----- numbers -----

  function Digit(d: nat): char
    requires d < 10
  {
    "0123456789"[d]
  }

  function Decimal(n: nat): string {
    if n < 10 then [Digit(n)] else Decimal(n / 10) + [Digit(n % 10)]
  }

  predicate AsciiDigit(c: char) {
    '0' <= c <= '9'
  }

  predicate AllAscii(s: string) {
    forall i | 0 <= i < |s| :: AsciiDigit(s[i])
  }

  lemma DigitIs(d: nat)
    requires d < 10
    ensures AsciiDigit(Digit(d)) && Digit(d) as int - '0' as int == d
  {
    assert d == 0 || d == 1 || d == 2 || d == 3 || d == 4 || d == 5 || d == 6 || d == 7 || d == 8 || d == 9;
  }

  // ----- words -----

  /** Which characters the language's split and isdigit take for blanks and digits,
      and which of the digits its integer conversion accepts, with their values. */
  datatype Chars = Chars(blank: char -> bool, digit: char -> bool, decimal: char -> Option<nat>)

  predicate Letter(c: char) {
    'a' <= c <= 'z' || c == '_'
  }

  /** What is needed of them: the space is a blank, letters and signs are neither
      blanks nor digits, and the ASCII digits are digits with their own values. */
  ghost predicate Usual(cs: Chars) {
    cs.blank(' ')
    && (forall c | Letter(c) || c == '=' || c == ':' :: !cs.blank(c) && !cs.digit(c))
    && (forall c | AsciiDigit(c) :: cs.digit(c) && !cs.blank(c) && cs.decimal(c) == Some(c as int - '0' as int))
    && (forall c | cs.decimal(c).Some? :: cs.decimal(c).value < 10)
  }

  /** A string of letters holds no blank. */
  lemma LettersSolid(cs: Chars, s: string)
    requires Usual(cs) && forall i | 0 <= i < |s| :: Letter(s[i])
    ensures Solid(cs, s)
  {
  }

  predicate AllDecimal(cs: Chars, s: string) {
    forall i | 0 <= i < |s| :: cs.decimal(s[i]).Some?
  }

  /** The longest decimal number the language converts, in either direction. */
  const MAX_DIGITS: nat := 4300

  predicate Printable(n: nat) {
    |Decimal(n)| <= MAX_DIGITS
  }

  /** The language's integer conversion of a string of decimal digits. */
  function Number(cs: Chars, s: string): nat
    requires AllDecimal(cs, s)
  {
    if s == "" then 0 else 10 * Number(cs, s[..|s| - 1]) + cs.decimal(s[|s| - 1]).value
  }

  lemma {:induction false} DecimalReads(cs: Chars, n: nat)
    requires Usual(cs)
    ensures Decimal(n) != "" && AllAscii(Decimal(n)) && AllDecimal(cs, Decimal(n)) && Number(cs, Decimal(n)) == n
  {
    if n < 10 {
      DigitIs(n);
      assert [Digit(n)][..0] == "";
    } else {
      DecimalReads(cs, n / 10);
      DigitIs(n % 10);
      var s := Decimal(n);
      assert s[..|s| - 1] == Decimal(n / 10);
    }
  }

  /** A number is printed in no more digits than it was read from. */
  lemma {:induction false} NumberPrints(cs: Chars, s: string)
    requires Usual(cs) && s != "" && AllDecimal(cs, s)
    ensures |Decimal(Number(cs, s))| <= |s|
  {
    var n := |s| - 1;
    assert cs.decimal(s[n]).Some?;
    if n == 0 {
      assert Number(cs, s[..0]) == 0;
    } else {
      NumberPrints(cs, s[..n]);
      assert Number(cs, s) / 10 == Number(cs, s[..n]);
    }
  }

  predicate Solid(cs: Chars, s: string) {
    forall i | 0 <= i < |s| :: !cs.blank(s[i])
  }

  /** One more character: it continues the last word or starts a new one. */
  function Grow(ws: seq<string>, joined: bool, c: char): seq<string> {
    if joined && ws != [] then ws[..|ws| - 1] + [ws[|ws| - 1] + [c]] else ws + [[c]]
  }

  /** The maximal blank-free runs, in order. */
  function Words(cs: Chars, s: string): seq<string> {
    if s == "" then []
    else
      var n := |s| - 1;
      var ws := Words(cs, s[..n]);
      if cs.blank(s[n]) then ws else Grow(ws, n > 0 && !cs.blank(s[n - 1]), s[n])
  }

  lemma GrowConcat(x: seq<string>, y: seq<string>, joined: bool, c: char)
    requires joined ==> y != []
    ensures Grow(x + y, joined, c) == x + Grow(y, joined, c)
  {
  }

  lemma {:induction false} WordsLast(cs: Chars, s: string)
    requires s != "" && !cs.blank(s[|s| - 1])
    ensures Words(cs, s) != []
  {
  }

  lemma {:induction false} WordsSolid(cs: Chars, s: string)
    ensures forall i | 0 <= i < |Words(cs, s)| :: Solid(cs, Words(cs, s)[i])
  {
    if s != "" { WordsSolid(cs, s[..|s| - 1]); }
  }

  /** Whether a further character would continue the last word. */
  predicate Open(cs: Chars, s: string) {
    s != "" && !cs.blank(s[|s| - 1])
  }

  lemma WordsStep(cs: Chars, s: string, c: char)
    ensures Words(cs, s + [c]) == if cs.blank(c) then Words(cs, s) else Grow(Words(cs, s), Open(cs, s), c)
  {
    assert (s + [c])[..|s|] == s;
    hide Grow;
  }

  lemma OpenEnd(cs: Chars, a: string, gap: char, b: string)
    requires cs.blank(gap)
    ensures Open(cs, a + [gap] + b) <==> Open(cs, b)
    ensures Open(cs, b) ==> Words(cs, b) != []
  {
    if Open(cs, b) { WordsLast(cs, b); }
    hide Words;
  }

  lemma WordsSplitMore(cs: Chars, a: string, gap: char, b: string, c: char)
    requires cs.blank(gap) && Words(cs, a + [gap] + b) == Words(cs, a) + Words(cs, b)
    ensures Words(cs, a + [gap] + (b + [c])) == Words(cs, a) + Words(cs, b + [c])
  {
    hide *;
    WordsStep(cs, b, c);
    WordsStep(cs, a + [gap] + b, c);
    OpenEnd(cs, a, gap, b);
    GrowConcat(Words(cs, a), Words(cs, b), Open(cs, b), c);
    assert a + [gap] + (b + [c]) == (a + [gap] + b) + [c];
  }

  lemma WordsBlank(cs: Chars, a: string, gap: char)
    requires cs.blank(gap)
    ensures Words(cs, a + [gap] + "") == Words(cs, a) + Words(cs, "")
  {
    WordsStep(cs, a, gap);
    assert a + [gap] + "" == a + [gap];
  }

  /** Any blank separates words, whatever stands on either side. */
  lemma {:induction false} WordsSplit(cs: Chars, a: string, gap: char, b: string)
    requires cs.blank(gap)
    ensures Words(cs, a + [gap] + b) == Words(cs, a) + Words(cs, b)
  {
    hide *;
    if b == "" {
      WordsBlank(cs, a, gap);
    } else {
      var m := |b| - 1;
      WordsSplit(cs, a, gap, b[..m]);
      WordsSplitMore(cs, a, gap, b[..m], b[m]);
      assert b == b[..m] + [b[m]];
    }
  }

  lemma SpaceSplits(cs: Chars, a: string, b: string)
    requires cs.blank(' ')
    ensures Words(cs, a + " " + b) == Words(cs, a) + Words(cs, b)
  {
    WordsSplit(cs, a, ' ', b);
    assert [' '] == " ";
    hide Words;
  }

  lemma {:induction false} OneWord(cs: Chars, w: string)
    requires w != "" && Solid(cs, w)
    ensures Words(cs, w) == [w]
  {
    var n := |w| - 1;
    assert w == w[..n] + [w[n]];
    if n > 0 {
      OneWord(cs, w[..n]);
      assert !cs.blank(w[n]) && !cs.blank(w[n - 1]);
      assert Words(cs, w) == Grow([w[..n]], true, w[n]);
      hide Words;
    } else {
      assert Words(cs, w[..0]) == [];
    }
  }

  // ----- the printer -----

  /** The words of the message that carry numbers. */
  function Tail(limit: nat, remaining: nat, retryAfter: nat): string {
    "limit=" + Decimal(limit) + " " + ("remaining=" + Decimal(remaining) + " " + ("retry_after=" + Decimal(retryAfter)))
  }

  function Message(tier: string, limit: nat, remaining: nat, retryAfter: nat): string {
    "rate_limited" + " " + ("tier=" + tier) + " " + Tail(limit, remaining, retryAfter)
  }

  /** The message, or nothing when a number is too long to be printed. */
  function FormatQuotaMessage(tier: string, limit: nat, remaining: nat, retryAfter: nat): Option<string> {
    if Printable(limit) && Printable(remaining) && Printable(retryAfter)
    then Some(Message(tier, limit, remaining, retryAfter)) else None
  }

  /** The limits that are enforced, each with the tier it puts into the message. */
  datatype Limit = PlatformQuota(platform: string) | KeyWrites | KeyReads | WorkspaceWrites | Global

  function TierOf(l: Limit): string {
    match l
    case PlatformQuota(platform) => "platform_quota:" + platform
    case KeyWrites => "per_key_writes"
    case KeyReads => "per_key_reads"
    case WorkspaceWrites => "per_workspace_writes"
    case Global => "global"
  }

  // ----- the parser -----

  /** A value of the parsed dictionary. */
  datatype Value = Text(text: string) | Int(n: nat)

  /** A word's value: a number if it is all digits, else its text. The integer
      conversion raises an error, here nothing, on a digit that is not decimal and
      on more than 4300 digits. */
  function Read(cs: Chars, v: string): Option<Value> {
    if AllDigits(cs, v)
    then (if AllDecimal(cs, v) && |v| <= MAX_DIGITS then Some(Int(Number(cs, v))) else None)
    else Some(Text(v))
  }

  /** The place of the first equals sign, or the length if there is none. */
  function FirstEquals(w: string): (i: nat)
    ensures i <= |w| && (i < |w| ==> w[i] == '=') && forall j | 0 <= j < i :: w[j] != '='
  {
    if w == "" || w[0] == '=' then 0
    else
      var i := FirstEquals(w[1..]);
      assert forall j | 0 < j < i + 1 :: w[j] == w[1..][j - 1];
      i + 1
  }

  type Dictionary = map<string, Value>

  /** Each word with an equals sign sets a key, later ones overriding earlier ones;
      a value that cannot be read ends the whole parse. */
  function Parts(cs: Chars, ws: seq<string>): Option<Dictionary> {
    if ws == [] then Some(map["error" := Text("rate_limited")])
    else
      var n := |ws| - 1;
      var before := Parts(cs, ws[..n]);
      if before.None? then None else Extended(cs, before.value, ws[n])
  }

  function Extended(cs: Chars, parts: Dictionary, w: string): Option<Dictionary> {
    var i := FirstEquals(w);
    if i == |w| then Some(parts)
    else
      var v := Read(cs, w[i + 1..]);
      if v.None? then None else Some(parts[w[..i] := v.value])
  }

  datatype Parsed = Parsed(parts: Dictionary, headers: map<string, string>)

  /** The dictionary and the headers made from its numbers, or nothing when the
      integer conversion raises. */
  method ParseQuotaMessage(cs: Chars, msg: string) returns (r: Option<Parsed>)
    ensures var parts := Parts(cs, Words(cs, msg));
            r == if parts.Some? then Some(Parsed(parts.value, Headers(parts.value))) else None
  {
    var ws := Words(cs, msg);
    var parts: Dictionary := map["error" := Text("rate_limited")];
    for i := 0 to |ws|
      invariant Parts(cs, ws[..i]) == Some(parts)
    {
      assert ws[..i + 1][..i] == ws[..i];
      var w := ws[i];
      if '=' in w {
        var cut := FirstEquals(w);
        var v := Read(cs, w[cut + 1..]);
        if v.None? {
          StaysFailed(cs, ws, i + 1);
          return None;
        }
        parts := parts[w[..cut] := v.value];
      }
    }
    assert ws[..|ws|] == ws;
    var headers := BuildHeaders(parts);
    return Some(Parsed(parts, headers));
  }

  /** A word whose value the integer conversion cannot read. */
  predicate Unreadable(cs: Chars, w: string) {
    var i := FirstEquals(w);
    i < |w| && Read(cs, w[i + 1..]).None?
  }

  ghost predicate SomeUnreadable(cs: Chars, ws: seq<string>) {
    exists i :: 0 <= i < |ws| && Unreadable(cs, ws[i])
  }

  /** The word has an equals sign, and what follows the first one is all digits and either
      longer than 4300 or not all decimal. */
  ghost predicate Overlong(cs: Chars, w: string) {
    exists i :: 0 <= i < |w| && w[i] == '=' && (forall j | 0 <= j < i :: w[j] != '=')
                && i + 1 < |w| && (forall j | i < j < |w| :: cs.digit(w[j]))
                && (|w| - i - 1 > 4300 || exists j :: i < j < |w| && cs.decimal(w[j]).None?)
  }

  lemma UnreadableIs(cs: Chars, w: string)
    ensures Unreadable(cs, w) <==> Overlong(cs, w)
  {
    var i := FirstEquals(w);
    hide FirstEquals;
    if i < |w| {
      var v := w[i + 1..];
      assert forall j | i < j < |w| :: w[j] == v[j - i - 1];
      assert forall j | 0 <= j < |v| :: v[j] == w[j + i + 1];
      assert AllDigits(cs, v) <==> i + 1 < |w| && forall j | i < j < |w| :: cs.digit(w[j]);
      assert AllDecimal(cs, v) <==> !exists j :: i < j < |w| && cs.decimal(w[j]).None?;
      hide AllDigits, AllDecimal, Number;
    }
  }

  lemma {:induction false} PartsFailIff(cs: Chars, ws: seq<string>)
    ensures Parts(cs, ws).None? <==> SomeUnreadable(cs, ws)
  {
    if ws != [] {
      var n := |ws| - 1;
      PartsFailIff(cs, ws[..n]);
      hide Read;
      if SomeUnreadable(cs, ws[..n]) {
        var i :| 0 <= i < n && Unreadable(cs, ws[..n][i]);
        assert Unreadable(cs, ws[i]);
      }
      if SomeUnreadable(cs, ws) {
        var i :| 0 <= i < |ws| && Unreadable(cs, ws[i]);
        assert i < n ==> Unreadable(cs, ws[..n][i]);
      }
    }
  }

  lemma SomeOverlong(cs: Chars, ws: seq<string>)
    ensures SomeUnreadable(cs, ws) <==> exists w :: w in ws && Overlong(cs, w)
  {
    hide Unreadable, Overlong;
    if i :| 0 <= i < |ws| && Unreadable(cs, ws[i]) {
      UnreadableIs(cs, ws[i]);
      assert ws[i] in ws;
    }
    if w :| w in ws && Overlong(cs, w) {
      UnreadableIs(cs, w);
      var i :| 0 <= i < |ws| && ws[i] == w;
    }
  }

  /** The parse raises exactly when some word's value cannot be read. */
  lemma PartsRaiseIff(cs: Chars, ws: seq<string>)
    ensures Parts(cs, ws).None? <==> exists w :: w in ws && Overlong(cs, w)
  {
    hide *;
    PartsFailIff(cs, ws);
    SomeOverlong(cs, ws);
  }

  lemma StaysFailed(cs: Chars, ws: seq<string>, n: nat)
    requires n <= |ws| && Parts(cs, ws[..n]).None?
    ensures Parts(cs, ws).None?
  {
    PartsFailIff(cs, ws[..n]);
    PartsFailIff(cs, ws);
    var i :| 0 <= i < n && Unreadable(cs, ws[..n][i]);
    assert Unreadable(cs, ws[i]);
  }

  method BuildHeaders(parts: Dictionary) returns (headers: map<string, string>)
    ensures headers == Headers(parts)
  {
    headers := map[];
    if "retry_after" in parts && parts["retry_after"].Int? {
      headers := headers["Retry-After" := Decimal(parts["retry_after"].n)];
    }
    if "limit" in parts && parts["limit"].Int? {
      headers := headers["X-RateLimit-Limit" := Decimal(parts["limit"].n)];
    }
    if "remaining" in parts && parts["remaining"].Int? {
      headers := headers["X-RateLimit-Remaining" := Decimal(parts["remaining"].n)];
    }
  }

  function Headers(parts: Dictionary): map<string, string> {
    (if "retry_after" in parts && parts["retry_after"].Int?
     then map["Retry-After" := Decimal(parts["retry_after"].n)] else map[])
    + (if "limit" in parts && parts["limit"].Int?
       then map["X-RateLimit-Limit" := Decimal(parts["limit"].n)] else map[])
    + (if "remaining" in parts && parts["remaining"].Int?
       then map["X-RateLimit-Remaining" := Decimal(parts["remaining"].n)] else map[])
  }

  /** The header is there when the key has a number, and carries it. */
  predicate Carries(parts: Dictionary, key: string, headers: map<string, string>, name: string) {
    (name in headers <==> key in parts && parts[key].Int?)
    && (name in headers && key in parts && parts[key].Int? ==> headers[name] == Decimal(parts[key].n))
  }

  /** Three headers and no other, each for its own number. */
  lemma HeadersCarry(parts: Dictionary)
    ensures Carries(parts, "limit", Headers(parts), "X-RateLimit-Limit")
    ensures Carries(parts, "remaining", Headers(parts), "X-RateLimit-Remaining")
    ensures Carries(parts, "retry_after", Headers(parts), "Retry-After")
    ensures forall name | name in Headers(parts) :: name in {"X-RateLimit-Limit", "X-RateLimit-Remaining", "Retry-After"}
  {
    assert |"Retry-After"| == 11 && |"X-RateLimit-Limit"| == 17 && |"X-RateLimit-Remaining"| == 21;
    hide Decimal;
  }

  // ----- the round trip -----

  lemma FirstEqualsIs(key: string, v: string)
    requires '=' !in key
    ensures FirstEquals(key + "=" + v) == |key|
    ensures (key + "=" + v)[..|key|] == key && (key + "=" + v)[|key| + 1..] == v
  {
    var w := key + "=" + v;
    assert w[|key|] == '=';
    var i := FirstEquals(w);
    hide FirstEquals;
    forall j | 0 <= j < |key| ensures w[j] != '=' {
      assert w[j] == key[j];
    }
  }

  /** One more `key=value` word. */
  lemma PartsMore(cs: Chars, ws: seq<string>, key: string, v: string)
    requires '=' !in key
    ensures Parts(cs, ws + [key + "=" + v]) ==
            if Parts(cs, ws).Some? && Read(cs, v).Some? then Some(Parts(cs, ws).value[key := Read(cs, v).value]) else None
  {
    assert (ws + [key + "=" + v])[..|ws|] == ws;
    FirstEqualsIs(key, v);
  }

  lemma ReadNumber(cs: Chars, n: nat)
    requires Usual(cs)
    ensures Solid(cs, Decimal(n)) && (Printable(n) ==> Read(cs, Decimal(n)) == Some(Int(n)))
  {
    DecimalReads(cs, n);
  }

  /** A word of the frame: a known key, an equals sign and a number. */
  lemma FrameWord(cs: Chars, key: string, n: nat)
    requires Usual(cs) && Solid(cs, key)
    ensures Words(cs, key + "=" + Decimal(n)) == [key + "=" + Decimal(n)]
  {
    ReadNumber(cs, n);
    OneWord(cs, key + "=" + Decimal(n));
  }

  ghost function Frame(limit: nat, remaining: nat, retryAfter: nat): seq<string> {
    ["limit=" + Decimal(limit), "remaining=" + Decimal(remaining), "retry_after=" + Decimal(retryAfter)]
  }

  lemma TailWords(cs: Chars, limit: nat, remaining: nat, retryAfter: nat)
    requires Usual(cs)
    ensures Words(cs, Tail(limit, remaining, retryAfter)) == Frame(limit, remaining, retryAfter)
  {
    var a, b, c := "limit=" + Decimal(limit), "remaining=" + Decimal(remaining), "retry_after=" + Decimal(retryAfter);
    assert "limit" + "=" == "limit=" && "remaining" + "=" == "remaining=" && "retry_after" + "=" == "retry_after=";
    LettersSolid(cs, "limit");
    LettersSolid(cs, "remaining");
    LettersSolid(cs, "retry_after");
    FrameWord(cs, "limit", limit);
    FrameWord(cs, "remaining", remaining);
    FrameWord(cs, "retry_after", retryAfter);
    SpaceSplits(cs, b, c);
    SpaceSplits(cs, a, b + " " + c);
    assert Tail(limit, remaining, retryAfter) == a + " " + (b + " " + c);
  }

  /** The words of a whole message, whatever the tier. */
  lemma MessageWords(cs: Chars, tier: string, limit: nat, remaining: nat, retryAfter: nat)
    requires Usual(cs)
    ensures Words(cs, Message(tier, limit, remaining, retryAfter))
         == ["rate_limited"] + Words(cs, "tier=" + tier) + Frame(limit, remaining, retryAfter)
  {
    var tail := Tail(limit, remaining, retryAfter);
    TailWords(cs, limit, remaining, retryAfter);
    LettersSolid(cs, "rate_limited");
    OneWord(cs, "rate_limited");
    hide Words;
    hide Tail;
    hide Solid;
    SpaceSplits(cs, "rate_limited", "tier=" + tier);
    SpaceSplits(cs, "rate_limited" + " " + ("tier=" + tier), tail);
  }

  function WithNumbers(parts: Dictionary, limit: nat, remaining: nat, retryAfter: nat): Dictionary {
    parts["limit" := Int(limit)]["remaining" := Int(remaining)]["retry_after" := Int(retryAfter)]
  }

  /** The frame sets its three keys, to the numbers, and no other. */
  lemma FrameParts(cs: Chars, ws: seq<string>, limit: nat, remaining: nat, retryAfter: nat)
    requires Usual(cs) && Printable(limit) && Printable(remaining) && Printable(retryAfter)
    ensures Parts(cs, ws + Frame(limit, remaining, retryAfter)) ==
            if Parts(cs, ws).Some? then Some(WithNumbers(Parts(cs, ws).value, limit, remaining, retryAfter)) else None
  {
    ReadNumber(cs, limit);
    ReadNumber(cs, remaining);
    ReadNumber(cs, retryAfter);
    var a, b, c := "limit" + "=" + Decimal(limit), "remaining" + "=" + Decimal(remaining),
                   "retry_after" + "=" + Decimal(retryAfter);
    assert "limit" + "=" == "limit=" && "remaining" + "=" == "remaining=" && "retry_after" + "=" == "retry_after=";
    assert ws + Frame(limit, remaining, retryAfter) == ((ws + [a]) + [b]) + [c];
    hide Parts, Read, Decimal, Printable;
    PartsMore(cs, ws, "limit", Decimal(limit));
    PartsMore(cs, ws + [a], "remaining", Decimal(remaining));
    PartsMore(cs, (ws + [a]) + [b], "retry_after", Decimal(retryAfter));
  }

  /** The texts of a parsed dictionary hold no blank. */
  lemma {:induction false} TextsSolid(cs: Chars, ws: seq<string>, key: string)
    requires Usual(cs) && forall i | 0 <= i < |ws| :: Solid(cs, ws[i])
    requires Parts(cs, ws).Some? && key in Parts(cs, ws).value && Parts(cs, ws).value[key].Text?
    ensures Solid(cs, Parts(cs, ws).value[key].text)
  {
    if ws != [] {
      var n := |ws| - 1;
      var i := FirstEquals(ws[n]);
      if !(i < |ws[n]| && key == ws[n][..i]) {
        TextsSolid(cs, ws[..n], key);
      }
    }
  }

  /** The words that come before the numbers. */
  function Opening(cs: Chars, tier: string): seq<string> {
    ["rate_limited"] + Words(cs, "tier=" + tier)
  }

  /** The four fields of a message, read back. */
  lemma MessageParts(cs: Chars, tier: string, limit: nat, remaining: nat, retryAfter: nat)
    requires Usual(cs) && Printable(limit) && Printable(remaining) && Printable(retryAfter)
    ensures Parts(cs, Words(cs, Message(tier, limit, remaining, retryAfter))) ==
            if Parts(cs, Opening(cs, tier)).Some?
            then Some(WithNumbers(Parts(cs, Opening(cs, tier)).value, limit, remaining, retryAfter)) else None
  {
    hide *;
    MessageWords(cs, tier, limit, remaining, retryAfter);
    FrameParts(cs, Opening(cs, tier), limit, remaining, retryAfter);
    OpeningIs(cs, tier);
  }

  lemma OpeningIs(cs: Chars, tier: string)
    ensures Opening(cs, tier) == ["rate_limited"] + Words(cs, "tier=" + tier)
  {
  }

  lemma SolidTierWord(cs: Chars, tier: string)
    requires Usual(cs) && Solid(cs, tier)
    ensures Words(cs, "tier=" + tier) == ["tier" + "=" + tier]
  {
    assert "tier" + "=" == "tier=";
    LettersSolid(cs, "tier");
    assert Solid(cs, "tier=");
    assert Solid(cs, "tier=" + tier);
    OneWord(cs, "tier=" + tier);
  }

  lemma FirstWordParts(cs: Chars)
    ensures Parts(cs, ["rate_limited"]) == Some(map["error" := Text("rate_limited")])
  {
    NoEquals();
    assert ["rate_limited"][..0] == [];
  }

  /** A tier without blanks is read as one value. */
  lemma SolidTier(cs: Chars, tier: string)
    requires Usual(cs) && Solid(cs, tier)
    ensures Parts(cs, Opening(cs, tier)) ==
            if Read(cs, tier).Some? then Some(map["error" := Text("rate_limited")]["tier" := Read(cs, tier).value]) else None
  {
    hide *;
    OpeningIs(cs, tier);
    SolidTierWord(cs, tier);
    FirstWordParts(cs);
    PartsMore(cs, ["rate_limited"], "tier", tier);
  }

  lemma NoEquals()
    ensures FirstEquals("rate_limited") == |"rate_limited"|
  {
    var w := "rate_limited";
    var i := FirstEquals(w);
    hide FirstEquals;
    assert forall j | 0 <= j < |w| :: w[j] != '=';
  }

  lemma UnreadableTail(cs: Chars, w: string, ws: seq<string>)
    requires !Unreadable(cs, w)
    ensures SomeUnreadable(cs, [w] + ws) <==> SomeUnreadable(cs, ws)
  {
    hide Unreadable;
    if SomeUnreadable(cs, ws) {
      var i :| 0 <= i < |ws| && Unreadable(cs, ws[i]);
      assert ([w] + ws)[i + 1] == ws[i];
    }
    if SomeUnreadable(cs, [w] + ws) {
      var i :| 0 <= i < |[w] + ws| && Unreadable(cs, ([w] + ws)[i]);
      assert i > 0 ==> ([w] + ws)[i] == ws[i - 1];
    }
  }

  lemma OpeningFails(cs: Chars, tier: string)
    ensures Parts(cs, Opening(cs, tier)).None? <==> SomeUnreadable(cs, Words(cs, "tier=" + tier))
  {
    NoEquals();
    assert !Unreadable(cs, "rate_limited");
    hide *;
    PartsFailIff(cs, Opening(cs, tier));
    OpeningIs(cs, tier);
    UnreadableTail(cs, "rate_limited", Words(cs, "tier=" + tier));
  }

  /** What is parsed from a message, if it could be printed. */
  function RoundTrip(cs: Chars, tier: string, limit: nat, remaining: nat, retryAfter: nat): Option<Dictionary>
    requires FormatQuotaMessage(tier, limit, remaining, retryAfter).Some?
  {
    Parts(cs, Words(cs, FormatQuotaMessage(tier, limit, remaining, retryAfter).value))
  }

  /** Whether the tier is read as it was printed. */
  predicate TierRead(parts: Option<Dictionary>, tier: string) {
    parts.Some? && "tier" in parts.value && parts.value["tier"] == Text(tier)
  }

  predicate AllDigits(cs: Chars, s: string) {
    s != "" && forall i | 0 <= i < |s| :: cs.digit(s[i])
  }

  lemma TierReadIff(cs: Chars, tier: string)
    requires Usual(cs)
    ensures TierRead(Parts(cs, Opening(cs, tier)), tier) <==> Solid(cs, tier) && !AllDigits(cs, tier)
  {
    var ws := Opening(cs, tier);
    hide Parts;
    if Solid(cs, tier) {
      SolidTier(cs, tier);
      hide Opening;
    } else if TierRead(Parts(cs, ws), tier) {
      LettersSolid(cs, "rate_limited");
      WordsSolid(cs, "tier=" + tier);
      hide Words;
      assert forall i | 0 <= i < |ws| :: Solid(cs, ws[i]);
      TextsSolid(cs, ws, "tier");
    }
  }

  /** What a message's dictionary holds: the numbers, and the rest as it was. */
  predicate NumbersRead(parts: Dictionary, limit: nat, remaining: nat, retryAfter: nat) {
    "limit" in parts && parts["limit"] == Int(limit)
    && "remaining" in parts && parts["remaining"] == Int(remaining)
    && "retry_after" in parts && parts["retry_after"] == Int(retryAfter)
  }

  lemma WithNumbersReads(parts: Dictionary, limit: nat, remaining: nat, retryAfter: nat, tier: string)
    ensures NumbersRead(WithNumbers(parts, limit, remaining, retryAfter), limit, remaining, retryAfter)
    ensures TierRead(Some(WithNumbers(parts, limit, remaining, retryAfter)), tier) <==> TierRead(Some(parts), tier)
  {
  }

  lemma PrintableParts(tier: string, limit: nat, remaining: nat, retryAfter: nat)
    requires FormatQuotaMessage(tier, limit, remaining, retryAfter).Some?
    ensures Printable(limit) && Printable(remaining) && Printable(retryAfter)
  {
    hide Printable;
  }

  lemma RoundTripParts(cs: Chars, tier: string, limit: nat, remaining: nat, retryAfter: nat)
    requires Usual(cs) && FormatQuotaMessage(tier, limit, remaining, retryAfter).Some?
    ensures var before := Parts(cs, Opening(cs, tier));
            RoundTrip(cs, tier, limit, remaining, retryAfter)
            == if before.Some? then Some(WithNumbers(before.value, limit, remaining, retryAfter)) else None
  {
    hide Parts, Words, Opening, WithNumbers, Message, Usual, Printable;
    PrintableParts(tier, limit, remaining, retryAfter);
    MessageParts(cs, tier, limit, remaining, retryAfter);
  }

  /** Parsing a message raises exactly when a word of the tier carries a value that is
      all digits and that the integer conversion cannot read. Otherwise the three
      numbers come back, whatever the tier. The tier comes back if and only if it
      holds no blank and is not all digits; colons and equals signs in it do no harm. */
  lemma QuotaRoundTrip(cs: Chars, tier: string, limit: nat, remaining: nat, retryAfter: nat)
    requires Usual(cs) && FormatQuotaMessage(tier, limit, remaining, retryAfter).Some?
    ensures var r := RoundTrip(cs, tier, limit, remaining, retryAfter);
            && (r.None? <==> exists w :: w in Words(cs, "tier=" + tier) && Overlong(cs, w))
            && (r.Some? ==> NumbersRead(r.value, limit, remaining, retryAfter))
            && (TierRead(r, tier) <==> Solid(cs, tier) && !AllDigits(cs, tier))
  {
    hide *;
    RoundTripParts(cs, tier, limit, remaining, retryAfter);
    OpeningFails(cs, tier);
    SomeOverlong(cs, Words(cs, "tier=" + tier));
    TierReadIff(cs, tier);
    var before := Parts(cs, Opening(cs, tier));
    if before.Some? {
      WithNumbersReads(before.value, limit, remaining, retryAfter, tier);
    } else {
      NoTier(tier);
    }
  }

  lemma NoTier(tier: string)
    ensures !TierRead(None, tier)
  {
  }

  predicate Identifier(s: string) {
    forall i | 0 <= i < |s| :: Letter(s[i]) || AsciiDigit(s[i])
  }

  lemma CallerTier(cs: Chars, l: Limit)
    requires Usual(cs) && (l.PlatformQuota? ==> Identifier(l.platform))
    ensures Solid(cs, TierOf(l)) && !AllDigits(cs, TierOf(l))
  {
    var t := TierOf(l);
    assert |t| > 0 && Letter(t[0]);
    match l
    case PlatformQuota(platform) =>
      LettersSolid(cs, "platform_quota");
      assert "platform_quota:" == "platform_quota" + ":";
      assert Solid(cs, platform);
    case KeyWrites => LettersSolid(cs, t);
    case KeyReads => LettersSolid(cs, t);
    case WorkspaceWrites => LettersSolid(cs, t);
    case Global => LettersSolid(cs, t);
  }

  /** What the enforced limits print is read back whole: the tier, as the platforms'
      names are identifiers, and the three numbers. */
  lemma CallersRoundTrip(cs: Chars, l: Limit, limit: nat, remaining: nat, retryAfter: nat)
    requires Usual(cs) && (l.PlatformQuota? ==> Identifier(l.platform))
    requires FormatQuotaMessage(TierOf(l), limit, remaining, retryAfter).Some?
    ensures var r := RoundTrip(cs, TierOf(l), limit, remaining, retryAfter);
            r == Some(map["error" := Text("rate_limited"), "tier" := Text(TierOf(l)), "limit" := Int(limit),
                          "remaining" := Int(remaining), "retry_after" := Int(retryAfter)])
  {
    CallerTier(cs, l);
    TextRead(cs, TierOf(l));
    hide RoundTrip, TierOf, FormatQuotaMessage, Solid, AllDigits, Parts, Opening, Read;
    RoundTripParts(cs, TierOf(l), limit, remaining, retryAfter);
    SolidTier(cs, TierOf(l));
  }

  lemma TextRead(cs: Chars, v: string)
    requires !AllDigits(cs, v)
    ensures Read(cs, v) == Some(Text(v))
  {
  }

  /** The tier tells which limit was hit. */
  lemma TiersDiffer(a: Limit, b: Limit)
    requires TierOf(a) == TierOf(b)
    ensures a == b
  {
    TierStarts(a);
    TierStarts(b);
    if a.PlatformQuota? {
      assert TierOf(a)[15..] == a.platform && TierOf(b)[15..] == b.platform;
    }
  }

  lemma TierStarts(l: Limit)
    ensures |TierOf(l)| > 1 && (l.PlatformQuota? <==> TierOf(l)[0] == 'p' && TierOf(l)[1] == 'l')
    ensures l.PlatformQuota? ==> |TierOf(l)| == 15 + |l.platform|
  {
  }

  /** A tier that is a single digit without a decimal value, such as a superscript
      two, would make the parser raise, whatever the numbers. */
  lemma SuperscriptTierRaises(cs: Chars, c: char, limit: nat, remaining: nat, retryAfter: nat)
    requires Usual(cs) && !cs.blank(c) && cs.digit(c) && cs.decimal(c).None?
    requires FormatQuotaMessage([c], limit, remaining, retryAfter).Some?
    ensures RoundTrip(cs, [c], limit, remaining, retryAfter) == None
  {
    RoundTripParts(cs, [c], limit, remaining, retryAfter);
    SolidTier(cs, [c]);
    assert !AllDecimal(cs, [c]) by { assert cs.decimal([c][0]).None?; }
    hide Parts, Opening, RoundTrip, FormatQuotaMessage;
  }

  /** Every number of a parsed dictionary can be printed into its header. */
  lemma {:induction false} NumbersPrint(cs: Chars, ws: seq<string>, key: string)
    requires Usual(cs) && Parts(cs, ws).Some? && key in Parts(cs, ws).value && Parts(cs, ws).value[key].Int?
    ensures Printable(Parts(cs, ws).value[key].n)
  {
    if ws != [] {
      var n := |ws| - 1;
      var i := FirstEquals(ws[n]);
      if i < |ws[n]| && key == ws[n][..i] {
        NumberPrints(cs, ws[n][i + 1..]);
      } else {
        NumbersPrint(cs, ws[..n], key);
      }
    }
  }

  lemma HeadersOf(parts: Dictionary, limit: nat, remaining: nat, retryAfter: nat)
    requires NumbersRead(parts, limit, remaining, retryAfter)
    ensures Headers(parts) == map["Retry-After" := Decimal(retryAfter), "X-RateLimit-Limit" := Decimal(limit),
                                  "X-RateLimit-Remaining" := Decimal(remaining)]
  {
    hide Decimal;
  }

  /** Whenever the parse succeeds the headers carry the same three numbers. */
  lemma QuotaHeaders(cs: Chars, tier: string, limit: nat, remaining: nat, retryAfter: nat)
    requires Usual(cs) && FormatQuotaMessage(tier, limit, remaining, retryAfter).Some?
    ensures var r := RoundTrip(cs, tier, limit, remaining, retryAfter);
            r.Some? ==>
              Headers(r.value) == map["Retry-After" := Decimal(retryAfter), "X-RateLimit-Limit" := Decimal(limit),
                                      "X-RateLimit-Remaining" := Decimal(remaining)]
  {
    hide *;
    QuotaRoundTrip(cs, tier, limit, remaining, retryAfter);
    var r := RoundTrip(cs, tier, limit, remaining, retryAfter);
    if r.Some? {
      HeadersOf(r.value, limit, remaining, retryAfter);
    }
  }
}
