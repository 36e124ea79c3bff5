/** The handful of Python string operations the services rely on, written out so that
    their behaviour is explicit: `t in s`, `s[:n]`, `s.lower()`, `s.strip()`,
    `s.split(c)`, `sep.join(parts)` and `str(n)` for integers. */
module Text {

  /** Python's `t in s` on strings: `t` occurs as a contiguous substring of `s`. */
  predicate Contains(s: string, t: string)
  {
    exists i | 0 <= i <= |s| - |t| :: OccursAt(s, t, i)
  }

  /** `t` occurs in `s` starting at index `i`. */
  predicate OccursAt(s: string, t: string, i: int)
  {
    0 <= i <= |s| - |t| && s[i..i + |t|] == t
  }

  /** Every character of a substring occurs in the enclosing string. */
  lemma {:induction false} ContainsHasChars(s: string, t: string, k: nat)
    requires Contains(s, t) && k < |t|
    ensures t[k] in s
  {
    var i :| 0 <= i <= |s| - |t| && OccursAt(s, t, i);
    assert s[i + k] == s[i..i + |t|][k];
  }

  /** A string contains every one of its prefixes, in particular itself. */
  lemma {:induction false} ContainsPrefix(s: string, t: string)
    requires t <= s
    ensures Contains(s, t)
  {
    assert OccursAt(s, t, 0);
  }

  /** A substring of the middle piece is a substring of the whole. */
  lemma {:induction false} ContainsInMiddle(a: string, t: string, b: string)
    ensures Contains(a + t + b, t)
  {
    var s := a + t + b;
    assert OccursAt(s, t, |a|);
  }

  /** `s[:n]` for a non-negative `n`. */
  function Take(s: string, n: nat): (r: string)
    ensures |r| == if n < |s| then n else |s|
    ensures r <= s
  {
    if n < |s| then s[..n] else s
  }

  /** The characters `str.isspace` accepts, which `str.strip()` removes. */
  predicate IsSpace(c: char)
  {
    || c == ' ' || ('\t' <= c <= '\r') || ('\U{1C}' <= c <= '\U{1F}')
    || c == '\U{85}' || c == '\U{A0}' || c == '\U{1680}' || ('\U{2000}' <= c <= '\U{200A}')
    || c == '\U{2028}' || c == '\U{2029}' || c == '\U{202F}' || c == '\U{205F}' || c == '\U{3000}'
  }

  /** The index of the first character at or after `i` that is not whitespace, or `|s|`. */
  function SkipSpace(s: string, i: nat): (r: nat)
    requires i <= |s|
    ensures i <= r <= |s|
    ensures r < |s| ==> !IsSpace(s[r])
    decreases |s| - i
  {
    if i < |s| && IsSpace(s[i]) then SkipSpace(s, i + 1) else i
  }

  /** The index just past the last character before `j` (and at or after `lo`) that is
      not whitespace, or `lo`. */
  function SkipSpaceBack(s: string, lo: nat, j: nat): (r: nat)
    requires lo <= j <= |s|
    ensures lo <= r <= j
    ensures r > lo ==> !IsSpace(s[r - 1])
    decreases j
  {
    if j > lo && IsSpace(s[j - 1]) then SkipSpaceBack(s, lo, j - 1) else j
  }

  /** Only whitespace is skipped going forward. */
  lemma {:induction false} SkipSpaceSkipsSpace(s: string, i: nat)
    requires i <= |s|
    ensures forall k | i <= k < SkipSpace(s, i) :: IsSpace(s[k])
    decreases |s| - i
  {
    if i < |s| && IsSpace(s[i]) {
      SkipSpaceSkipsSpace(s, i + 1);
    }
  }

  /** Only whitespace is skipped going backward. */
  lemma {:induction false} SkipSpaceBackSkipsSpace(s: string, lo: nat, j: nat)
    requires lo <= j <= |s|
    ensures forall k | SkipSpaceBack(s, lo, j) <= k < j :: IsSpace(s[k])
    decreases j
  {
    if j > lo && IsSpace(s[j - 1]) {
      SkipSpaceBackSkipsSpace(s, lo, j - 1);
    }
  }

  /** `s.strip()`: the slice of `s` that remains once the whitespace on both ends is gone. */
  function Strip(s: string): (r: string)
    ensures |r| <= |s|
    ensures r != [] ==> !IsSpace(r[0]) && !IsSpace(r[|r| - 1])
  {
    var a := SkipSpace(s, 0);
    s[a..SkipSpaceBack(s, a, |s|)]
  }

  /** `s.strip()` is the slice of `s` between its leading and its trailing whitespace. */
  lemma {:induction false} StripOffset(s: string) returns (i: nat)
    ensures StrippedAt(s, Strip(s), i)
  {
    i := SkipSpace(s, 0);
    SkipSpaceSkipsSpace(s, 0);
    SkipSpaceBackSkipsSpace(s, i, |s|);
  }

  /** `r` is the slice of `s` at index `i`, and only whitespace lies outside it. */
  predicate StrippedAt(s: string, r: string, i: int)
  {
    && 0 <= i <= |s| - |r| && r == s[i..i + |r|]
    && (forall k | 0 <= k < i :: IsSpace(s[k]))
    && (forall k | i + |r| <= k < |s| :: IsSpace(s[k]))
  }

  /** Stripping changes nothing in a string that neither starts nor ends with whitespace. */
  lemma {:induction false} StripUnchanged(s: string)
    requires s != [] ==> !IsSpace(s[0]) && !IsSpace(s[|s| - 1])
    ensures Strip(s) == s
  {
  }

  /** Stripping twice is stripping once. */
  lemma {:induction false} StripIdempotent(s: string)
    ensures Strip(Strip(s)) == Strip(s)
  {
    StripUnchanged(Strip(s));
  }

  /** Every character of the stripped string comes from the string. */
  lemma {:induction false} StripChars(s: string, x: char)
    requires x in Strip(s)
    ensures x in s
  {
    var r := Strip(s);
    var i := StripOffset(s);
    assert forall y | y in s[i..i + |r|] :: y in s;
  }

  /** The ASCII part of `str.lower()`. */
  function LowerChar(c: char): (r: char)
    ensures 'A' <= c <= 'Z' ==> r as int == c as int + 32
    ensures !('A' <= c <= 'Z') ==> r == c
  {
    if 'A' <= c <= 'Z' then (c as int + 32) as char else c
  }

  function Lower(s: string): (r: string)
    ensures |r| == |s|
    ensures forall k | 0 <= k < |s| :: r[k] == LowerChar(s[k])
  {
    seq(|s|, k requires 0 <= k < |s| => LowerChar(s[k]))
  }

  /** A string without upper-case ASCII letters is its own lower-case form. */
  lemma {:induction false} LowerUnchanged(s: string)
    requires forall c | c in s :: !('A' <= c <= 'Z')
    ensures Lower(s) == s
  {
    assert forall k | 0 <= k < |s| :: s[k] in s;
  }

  /** Lower-casing twice is lower-casing once. */
  lemma {:induction false} LowerIdempotent(s: string)
    ensures Lower(Lower(s)) == Lower(s)
  {
  }

  /** A lower-case letter in `Lower(s)` comes from itself or its upper-case form in `s`. */
  lemma {:induction false} LowerLetterOrigin(s: string, c: char)
    requires 'a' <= c <= 'z' && c in Lower(s)
    ensures c in s || (c as int - 32) as char in s
  {
    var k :| 0 <= k < |s| && Lower(s)[k] == c;
    assert s[k] == c || s[k] == (c as int - 32) as char;
  }

  /** The index of the first `c` in `s`, as `s.index(c)`. */
  function IndexOf(s: string, c: char): (i: nat)
    requires c in s
    ensures i < |s| && s[i] == c && c !in s[..i]
  {
    if s[0] == c then 0 else 1 + IndexOf(s[1..], c)
  }

  /** The index of a `c` preceded by no other `c` is `IndexOf(s, c)`. */
  lemma {:induction false} IndexOfFirst(s: string, c: char, j: nat)
    requires j < |s| && s[j] == c && c !in s[..j]
    ensures IndexOf(s, c) == j
  {
    if j > 0 {
      assert s[0] == s[..j][0];
      assert s[1..][..j - 1] == s[1..j];
      assert forall x | x in s[1..j] :: x in s[..j];
      IndexOfFirst(s[1..], c, j - 1);
    }
  }

  /** `s.split(sep)` with a one-character separator: the pieces between separators. */
  function Split(s: string, sep: char): (parts: seq<string>)
    ensures |parts| >= 1
    ensures forall p | p in parts :: sep !in p
    decreases |s|
  {
    if sep !in s then [s]
    else
      var i := IndexOf(s, sep);
      [s[..i]] + Split(s[i + 1..], sep)
  }

  /** `sep.join(parts)`. */
  function Join(parts: seq<string>, sep: string): string
  {
    if |parts| == 0 then ""
    else if |parts| == 1 then parts[0]
    else parts[0] + sep + Join(parts[1..], sep)
  }

  /** Joining one more piece appends the separator and the piece. */
  lemma {:induction false} JoinAppend(parts: seq<string>, x: string, sep: string)
    requires |parts| >= 1
    ensures Join(parts + [x], sep) == Join(parts, sep) + sep + x
    decreases |parts|
  {
    if |parts| == 1 {
      assert (parts + [x])[1..] == [x];
    } else {
      assert (parts + [x])[1..] == parts[1..] + [x];
      JoinAppend(parts[1..], x, sep);
    }
  }

  /** Joining a piece in front of a non-empty list puts the separator between them. */
  lemma {:induction false} JoinCons(head: string, rest: seq<string>, sep: string)
    requires rest != []
    ensures Join([head] + rest, sep) == head + sep + Join(rest, sep)
  {
    assert ([head] + rest)[1..] == rest;
  }

  /** A character in neither the separator nor any piece is not in the join. */
  lemma {:induction false} JoinExcludes(parts: seq<string>, sep: string, c: char)
    requires c !in sep
    requires forall p | p in parts :: c !in p
    ensures c !in Join(parts, sep)
    decreases |parts|
  {
    if |parts| > 1 {
      assert forall p | p in parts[1..] :: p in parts;
      JoinExcludes(parts[1..], sep, c);
    }
  }

  /** One step of `Split` when the separator occurs: the part before it, then the rest. */
  lemma {:induction false} SplitUnfold(s: string, sep: char)
    requires sep in s
    ensures var i := IndexOf(s, sep);
            Split(s, sep)[0] == s[..i] &&
            forall k | 0 < k < |Split(s, sep)| :: Split(s, sep)[k] == Split(s[i + 1..], sep)[k - 1]
  {
  }

  /** Every character of a piece of a split comes from the split string. */
  lemma {:induction false} SplitPartChars(s: string, sep: char, k: nat, x: char)
    requires k < |Split(s, sep)| && x in Split(s, sep)[k]
    ensures x in s
    decreases |s|
  {
    if sep in s {
      var i := IndexOf(s, sep);
      var head, t := s[..i], s[i + 1..];
      SplitUnfold(s, sep);
      if k == 0 {
        var j :| 0 <= j < |head| && head[j] == x;
        assert s[j] == x;
      } else {
        SplitPartChars(t, sep, k - 1, x);
        var j :| 0 <= j < |t| && t[j] == x;
        assert s[i + 1 + j] == x;
      }
    }
  }

  /** A join starts with its first piece. */
  lemma {:induction false} JoinStartsWithFirst(parts: seq<string>, sep: string)
    requires parts != []
    ensures parts[0] <= Join(parts, sep)
  {
  }

  /** A substring of the tail is a substring of the whole. */
  lemma {:induction false} ContainsShift(a: string, s: string, t: string)
    requires Contains(s, t)
    ensures Contains(a + s, t)
  {
    var i :| 0 <= i <= |s| - |t| && OccursAt(s, t, i);
    assert (a + s)[|a| + i..|a| + i + |t|] == s[i..i + |t|];
    assert OccursAt(a + s, t, |a| + i);
  }

  /** Every piece occurs in the join. */
  lemma {:induction false} JoinContainsPart(parts: seq<string>, sep: string, k: nat)
    requires k < |parts|
    ensures Contains(Join(parts, sep), parts[k])
    decreases |parts|
  {
    if k == 0 {
      JoinStartsWithFirst(parts, sep);
      ContainsPrefix(Join(parts, sep), parts[0]);
    } else {
      JoinContainsPart(parts[1..], sep, k - 1);
      ContainsShift(parts[0] + sep, Join(parts[1..], sep), parts[k]);
    }
  }

  /** A piece whose first character is in no other piece and not in the separator occurs
      in the join exactly when it is one of the pieces. */
  lemma {:induction false} JoinMentions(parts: seq<string>, sep: string, text: string)
    requires text != [] && text[0] !in sep
    requires forall p | p in parts && p != text :: text[0] !in p
    ensures Contains(Join(parts, sep), text) <==> text in parts
  {
    if text in parts {
      var k :| 0 <= k < |parts| && parts[k] == text;
      JoinContainsPart(parts, sep, k);
    } else if Contains(Join(parts, sep), text) {
      ContainsHasChars(Join(parts, sep), text, 0);
      JoinExcludes(parts, sep, text[0]);
    }
  }

  /** Joining the pieces of a split with the separator gives back the string. */
  lemma {:induction false} JoinOfSplit(s: string, sep: char)
    ensures Join(Split(s, sep), [sep]) == s
    decreases |s|
  {
    if sep in s {
      var i := IndexOf(s, sep);
      var t := s[i + 1..];
      assert Split(s, sep) == [s[..i]] + Split(t, sep);
      JoinCons(s[..i], Split(t, sep), [sep]);
      JoinOfSplit(t, sep);
      assert s == s[..i] + [sep] + t;
    }
  }

  /** Splitting a join of separator-free pieces gives back the pieces. */
  lemma {:induction false} SplitOfJoin(parts: seq<string>, sep: char)
    requires |parts| >= 1
    requires forall p | p in parts :: sep !in p
    ensures Split(Join(parts, [sep]), sep) == parts
    decreases |parts|
  {
    if |parts| > 1 {
      var s := Join(parts, [sep]);
      var head := parts[0];
      assert s == head + [sep] + Join(parts[1..], sep := [sep]);
      assert s[..|head|] == head;
      IndexOfFirst(s, sep, |head|);
      var i := IndexOf(s, sep);
      assert s[i + 1..] == Join(parts[1..], [sep]);
      SplitOfJoin(parts[1..], sep);
    }
  }

  function DigitChar(d: nat): (c: char)
    requires d < 10
    ensures '0' <= c <= '9'
  {
    ('0' as int + d) as char
  }

  /** `str(n)` for a natural number: its decimal digits, most significant first. */
  function NatToString(n: nat): (s: string)
    ensures |s| >= 1
    ensures AllDigits(s)
  {
    if n < 10 then [DigitChar(n)] else NatToString(n / 10) + [DigitChar(n % 10)]
  }

  /** `str(i)` for an integer: a minus sign before the digits of a negative number. */
  function IntToString(i: int): (s: string)
    ensures |s| >= 1
    ensures s[0] == '-' <==> i < 0
    ensures i < 0 ==> AllDigits(s[1..])
    ensures i >= 0 ==> AllDigits(s)
  {
    if i < 0 then "-" + NatToString(-i) else NatToString(i)
  }

  predicate AllDigits(s: string)
  {
    forall k | 0 <= k < |s| :: '0' <= s[k] <= '9'
  }

  /** The number a string of decimal digits denotes. */
  function DigitsValue(s: string): nat
    requires AllDigits(s)
  {
    if s == [] then 0
    else DigitsValue(s[..|s| - 1]) * 10 + (s[|s| - 1] as int - '0' as int)
  }

  /** Reading back the decimal form of `n` gives `n`. */
  lemma {:induction false} NatToStringRoundTrip(n: nat)
    ensures DigitsValue(NatToString(n)) == n
  {
    if n >= 10 {
      NatToStringRoundTrip(n / 10);
      var s := NatToString(n);
      assert s[..|s| - 1] == NatToString(n / 10);
    }
  }

  // ---------------------------------------------------------------------------------
  // `repr(s)`, as Python's enum machinery puts it into its `ValueError` message
  // ---------------------------------------------------------------------------------

  /** The lower-case hexadecimal digit of a value below 16. */
  function HexDigit(n: nat): (c: char)
    requires n < 16
    ensures IsHexDigit(c) && HexValue(c) == n
  {
    if n < 10 then ('0' as int + n) as char else ('a' as int + n - 10) as char
  }

  predicate IsHexDigit(c: char)
  {
    '0' <= c <= '9' || 'a' <= c <= 'f'
  }

  /** The value of a lower-case hexadecimal digit. */
  function HexValue(c: char): (n: nat)
    requires IsHexDigit(c)
    ensures n < 16
  {
    if c <= '9' then c as int - '0' as int else c as int - 'a' as int + 10
  }

  /** The non-printable characters up to U+00FF that `repr` writes as `\xhh`:
      the C0 controls other than tab, newline and carriage return (those have their own
      escapes), DEL, the C1 controls, the no-break space and the soft hyphen. */
  predicate HexEscaped(c: char)
  {
    c as int < 0x20 || 0x7f <= c as int <= 0xa0 || c as int == 0xad
  }

  /** The quote `repr` chooses: a double quote when the text holds a single quote and
      no double quote, a single quote otherwise. */
  function ReprQuote(s: string): char
  {
    if '\'' in s && '"' !in s then '"' else '\''
  }

  /** How `repr` writes one character inside quotes `q`. */
  function ReprChar(c: char, q: char): string
  {
    if c == '\\' || c == q then ['\\', c]
    else if c == '\t' then "\\t"
    else if c == '\n' then "\\n"
    else if c == '\r' then "\\r"
    else if HexEscaped(c) then ['\\', 'x', HexDigit(c as int / 16), HexDigit(c as int % 16)]
    else [c]
  }

  /** The characters of `s` as `repr` writes them between the quotes. */
  function ReprBody(s: string, q: char): (r: string)
    ensures |r| >= |s|
  {
    if s == [] then [] else ReprChar(s[0], q) + ReprBody(s[1..], q)
  }

  /** Python's `repr(s)` for a string. */
  function PyRepr(s: string): (r: string)
    ensures |r| >= |s| + 2
  {
    var q := ReprQuote(s);
    [q] + ReprBody(s, q) + [q]
  }

  /** Reading a quoted body back: `\t`, `\n`, `\r` and `\xhh` stand for the characters
      they name, a backslash before any other character stands for that character. */
  function Unescape(r: string): string
    decreases |r|
  {
    if r == [] then []
    else if r[0] == '\\' && |r| >= 2 then
      if r[1] == 't' then "\t" + Unescape(r[2..])
      else if r[1] == 'n' then "\n" + Unescape(r[2..])
      else if r[1] == 'r' then "\r" + Unescape(r[2..])
      else if r[1] == 'x' && |r| >= 4 && IsHexDigit(r[2]) && IsHexDigit(r[3]) then
        [(HexValue(r[2]) * 16 + HexValue(r[3])) as char] + Unescape(r[4..])
      else [r[1]] + Unescape(r[2..])
    else [r[0]] + Unescape(r[1..])
  }

  /** One escaped character reads back as itself, whatever follows it. */
  lemma {:induction false} UnescapeReprChar(c: char, q: char, rest: string)
    requires q == '"' || q == '\''
    ensures Unescape(ReprChar(c, q) + rest) == [c] + Unescape(rest)
  {
    var e := ReprChar(c, q);
    var r := e + rest;
    if c == '\\' || c == q {
      assert r[0] == '\\' && r[1] == c && r[2..] == rest;
    } else if c == '\t' || c == '\n' || c == '\r' {
      assert r[0] == '\\' && r[2..] == rest;
    } else if HexEscaped(c) {
      var hi, lo := c as int / 16, c as int % 16;
      assert r[0] == '\\' && r[1] == 'x' && r[2] == HexDigit(hi) && r[3] == HexDigit(lo);
      assert r[4..] == rest;
      assert hi * 16 + lo == c as int;
    } else {
      assert r[0] == c && r[1..] == rest;
    }
  }

  /** Reading back what `repr` wrote between the quotes gives the original text. */
  lemma {:induction false} ReprBodyRoundTrip(s: string, q: char)
    requires q == '"' || q == '\''
    ensures Unescape(ReprBody(s, q)) == s
  {
    if s != [] {
      ReprBodyRoundTrip(s[1..], q);
      UnescapeReprChar(s[0], q, ReprBody(s[1..], q));
      assert s == [s[0]] + s[1..];
    }
  }

  /** `repr` puts the same quote at both ends: a double quote exactly when the text holds
      a single quote and no double quote. */
  lemma {:induction false} PyReprQuotes(s: string)
    ensures var r := PyRepr(s);
            && r[0] == r[|r| - 1]
            && (r[0] == '"' <==> '\'' in s && '"' !in s)
            && (r[0] == '"' || r[0] == '\'')
  {
  }

  /** `repr` loses nothing: unquoting and unescaping it gives the text back. */
  lemma {:induction false} PyReprRoundTrip(s: string)
    ensures var r := PyRepr(s); Unescape(r[1..|r| - 1]) == s
  {
    var q := ReprQuote(s);
    var r := PyRepr(s);
    assert r[1..|r| - 1] == ReprBody(s, q);
    ReprBodyRoundTrip(s, q);
  }

  /** Printable ASCII text without quotes or backslashes is written as is, between single
      quotes. */
  lemma {:induction false} PyReprPlain(s: string)
    requires forall k | 0 <= k < |s| :: ' ' <= s[k] <= '~' && s[k] != '\\' && s[k] != '\'' && s[k] != '"'
    ensures PyRepr(s) == "'" + s + "'"
  {
    ReprBodyPlain(s);
  }

  lemma {:induction false} ReprBodyPlain(s: string)
    requires forall k | 0 <= k < |s| :: ' ' <= s[k] <= '~' && s[k] != '\\' && s[k] != '\'' && s[k] != '"'
    ensures ReprBody(s, '\'') == s
  {
    if s != [] {
      ReprBodyPlain(s[1..]);
      assert s == [s[0]] + s[1..];
    }
  }

  /** A single quote in the text makes `repr` switch to double quotes: `it's` is written
      `"it's"`. */
  lemma {:induction false} PyReprApostrophe()
    ensures PyRepr("it's") == "\"it's\""
  {
    var s := "it's";
    assert s[2] == '\'';
    assert ReprQuote(s) == '"';
    assert ReprBody(s[3..], '"') == "s";
    assert ReprBody(s[2..], '"') == "'s";
    assert ReprBody(s[1..], '"') == "t's";
    assert ReprBody(s, '"') == "it's";
  }

  /** A control character is written as a hex escape, so the text `\x04` followed by "29"
      is written `'\x0429'`, in which "429" occurs. */
  lemma {:induction false} PyReprHexEscape()
    ensures PyRepr([4 as char, '2', '9']) == "'\\x0429'"
    ensures Contains(PyRepr([4 as char, '2', '9']), "429")
  {
    var s := [4 as char, '2', '9'];
    assert ReprBody(s[2..], '\'') == "9";
    assert ReprBody(s[1..], '\'') == "29";
    assert ReprBody(s, '\'') == "\\x0429";
    assert OccursAt(PyRepr(s), "429", 4);
  }
}
