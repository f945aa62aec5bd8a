/** Escaping LinkedIn's reserved characters, and the caption length counted for it
    elsewhere (providers/linkedin.py, providers/__init__.py). */
module LinkedIn {
  import opened Common

  const RESERVED: string := "|{}@[]()<>#*_~"

  /** Whole-string replacement of one character. */
  function ReplaceChar(s: string, c: char, repl: string): string {
    if s == "" then "" else (if s[0] == c then repl else [s[0]]) + ReplaceChar(s[1..], c, repl)
  }

  /** One pass: a backslash before every character of `special`. */
  function EscapeWith(t: string, special: set<char>): string {
    if t == "" then "" else (if t[0] in special then ['\\', t[0]] else [t[0]]) + EscapeWith(t[1..], special)
  }

  /** The characters that cost an escape: the backslash and the reserved ones. */
  function Special(): set<char> {
    {'\\'} + Elems(RESERVED)
  }

  lemma ReplaceFirst(s: string, c: char, repl: string)
    ensures s == "" ==> ReplaceChar(s, c, repl) == ""
    ensures s != "" ==> ReplaceChar(s, c, repl) == (if s[0] == c then repl else [s[0]]) + ReplaceChar(s[1..], c, repl)
  {
  }

  lemma {:induction false} ReplaceConcat(a: string, b: string, c: char, repl: string)
    ensures ReplaceChar(a + b, c, repl) == ReplaceChar(a, c, repl) + ReplaceChar(b, c, repl)
  {
    hide *;
    ReplaceFirst(a, c, repl);
    if a == "" {
      assert a + b == b;
    } else {
      ReplaceConcat(a[1..], b, c, repl);
      ReplaceFirst(a + b, c, repl);
      assert (a + b)[1..] == a[1..] + b;
    }
  }

  /** Replacing one more character by its escape turns the pass for `special` into
      the pass for `special` and it: escapes added before are not escaped again. */
  lemma {:induction false} ReplaceExtends(t: string, special: set<char>, c: char)
    requires '\\' in special && c !in special
    ensures ReplaceChar(EscapeWith(t, special), c, ['\\', c]) == EscapeWith(t, special + {c})
  {
    if t != "" {
      ReplaceExtends(t[1..], special, c);
      var head := if t[0] in special then ['\\', t[0]] else [t[0]];
      ReplaceConcat(head, EscapeWith(t[1..], special), c, ['\\', c]);
      HeadReplaced(t[0], special, c);
    }
  }

  lemma HeadReplaced(x: char, special: set<char>, c: char)
    requires '\\' in special && c !in special
    ensures ReplaceChar(if x in special then ['\\', x] else [x], c, ['\\', c])
         == if x in special + {c} then ['\\', x] else [x]
  {
    var pair := ['\\', x];
    assert pair[1..] == [x] && [x][1..] == [];
    assert ReplaceChar([x], c, ['\\', c]) == if x == c then ['\\', c] else [x];
  }

  /** The first replacement doubles the backslashes. */
  lemma {:induction false} BackslashFirst(t: string)
    ensures ReplaceChar(t, '\\', ['\\', '\\']) == EscapeWith(t, {'\\'})
  {
    if t != "" { BackslashFirst(t[1..]); }
  }

  lemma ReservedDistinct()
    ensures NoRepeats(RESERVED) && '\\' !in RESERVED && |RESERVED| == 14
  {
  }

  /** LinkedIn's reserved characters and the backslash, one by one. */
  ghost function Costly(): set<char> {
    {'\\', '|', '{', '}', '@', '[', ']', '(', ')', '<', '>', '#', '*', '_', '~'}
  }

  lemma SpecialIs()
    ensures Special() == Costly()
  {
    var r := RESERVED;
    assert r == ['|', '{', '}', '@', '[', ']', '(', ')', '<', '>', '#', '*', '_', '~'];
  }

  /** Backslash first, then one whole-string replacement per reserved character:
      together exactly the single pass. */
  method EscapeCommentary(text: string) returns (escaped: string)
    ensures escaped == EscapeWith(text, Special())
    ensures escaped == EscapeWith(text, Costly())
  {
    SpecialIs();
    hide Costly;
    if text == "" {
      return text;
    }
    ReservedDistinct();
    BackslashFirst(text);
    escaped := ReplaceChar(text, '\\', ['\\', '\\']);
    var reserved := RESERVED;
    assert {'\\'} + Elems(reserved[..0]) == {'\\'};
    for i := 0 to |reserved|
      invariant escaped == EscapeWith(text, {'\\'} + Elems(reserved[..i]))
    {
      var c := reserved[i];
      assert reserved[..i + 1] == reserved[..i] + [c];
      assert ({'\\'} + Elems(reserved[..i])) + {c} == {'\\'} + Elems(reserved[..i + 1]);
      ReplaceExtends(text, {'\\'} + Elems(reserved[..i]), c);
      escaped := ReplaceChar(escaped, c, ['\\', c]);
    }
    assert reserved[..|reserved|] == reserved;
  }

  // ----- undoing it -----

  /** One pass: a backslash stands for the character after it. */
  function Unescape(s: string): string {
    if s == "" then ""
    else if s[0] == '\\' && |s| > 1 then [s[1]] + Unescape(s[2..])
    else [s[0]] + Unescape(s[1..])
  }

  /** Reading left to right, every special character comes right after an escaping
      backslash, and escaping backslashes come before nothing else. */
  predicate WellEscaped(s: string, special: set<char>) {
    s == ""
    || (s[0] == '\\' && |s| > 1 && s[1] in special && WellEscaped(s[2..], special))
    || (s[0] != '\\' && s[0] !in special && WellEscaped(s[1..], special))
  }

  /** Escaping is undone by the one-pass unescape, so no two captions escape alike,
      and it leaves no special character unescaped. */
  lemma {:induction false} EscapeRoundTrip(t: string, special: set<char>)
    requires '\\' in special
    ensures Unescape(EscapeWith(t, special)) == t
    ensures WellEscaped(EscapeWith(t, special), special)
  {
    if t != "" {
      EscapeRoundTrip(t[1..], special);
      var e := EscapeWith(t, special);
      if t[0] in special {
        assert e[2..] == EscapeWith(t[1..], special);
      } else {
        assert e[1..] == EscapeWith(t[1..], special);
      }
    }
  }

  /** And back: what is well escaped is the escape of its unescape, so the escaped
      captions are exactly the well-escaped strings. */
  lemma {:induction false} UnescapeRoundTrip(s: string, special: set<char>)
    requires '\\' in special && WellEscaped(s, special)
    ensures EscapeWith(Unescape(s), special) == s
  {
    if s != "" {
      if s[0] == '\\' {
        UnescapeRoundTrip(s[2..], special);
        assert Unescape(s)[1..] == Unescape(s[2..]);
        assert s == ['\\', s[1]] + s[2..];
      } else {
        UnescapeRoundTrip(s[1..], special);
        assert Unescape(s)[1..] == Unescape(s[1..]);
        assert s == [s[0]] + s[1..];
      }
    }
  }

  lemma EscapeInjective(a: string, b: string, special: set<char>)
    requires '\\' in special && EscapeWith(a, special) == EscapeWith(b, special)
    ensures a == b
  {
    EscapeRoundTrip(a, special);
    EscapeRoundTrip(b, special);
  }

  // ----- the length, counted in another file -----

  function Count(s: string, c: char): nat {
    if s == "" then 0 else (if s[0] == c then 1 else 0) + Count(s[1..], c)
  }

  /** The counts of several characters, added up. */
  function Counts(s: string, chars: string): nat {
    if chars == "" then 0 else Count(s, chars[0]) + Counts(s, chars[1..])
  }

  /** The characters a platform escapes, if it escapes any. */
  function EscapedChars(platform: string): Option<string> {
    if platform == "linkedin_personal" || platform == "linkedin_company" then Some("\\" + RESERVED) else None
  }

  function CaptionWireLength(platform: string, text: string): nat {
    match EscapedChars(platform)
    case None => |text|
    case Some(chars) => if chars == "" then |text| else |text| + Counts(text, chars)
  }

  lemma {:induction false} CountsHead(s: string, chars: string)
    requires s != "" && NoRepeats(chars)
    ensures Counts(s, chars) == (if s[0] in chars then 1 else 0) + Counts(s[1..], chars)
  {
    if chars != "" {
      CountsHead(s, chars[1..]);
      assert chars == [chars[0]] + chars[1..];
      assert chars[0] !in chars[1..];
    }
  }

  lemma {:induction false} CountsNothing(chars: string)
    ensures Counts("", chars) == 0
  {
    if chars != "" { CountsNothing(chars[1..]); }
  }

  lemma {:induction false} EscapeLength(t: string, chars: string)
    requires NoRepeats(chars)
    ensures |EscapeWith(t, Elems(chars))| == |t| + Counts(t, chars)
  {
    if t == "" {
      CountsNothing(chars);
    } else {
      EscapeLength(t[1..], chars);
      CountsHead(t, chars);
    }
  }

  /** The counted length is the length of what is sent, for every caption and every platform. */
  lemma WireLengthIsEscapedLength(platform: string, text: string)
    ensures CaptionWireLength(platform, text) ==
            if platform == "linkedin_personal" || platform == "linkedin_company"
            then |EscapeWith(text, Costly())| else |text|
  {
    SpecialIs();
    hide Costly, EscapeWith, Counts;
    if EscapedChars(platform).Some? {
      ReservedDistinct();
      var reserved := RESERVED;
      var chars := "\\" + reserved;
      assert NoRepeats(chars);
      assert Elems(chars) == {'\\'} + Elems(reserved);
      EscapeLength(text, chars);
    }
  }
}
