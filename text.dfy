/** The JavaScript string built-ins the frontend relies on: `split`, `trim`,
    `startsWith`/`endsWith`, `String(n)`, `Number(s)` on digit strings,
    `padStart(2, "0")` and `toFixed(2)` on integer cents. */
module Text {

  /** The characters JavaScript's `trim` removes and `\s` matches. */
  predicate IsWhitespace(c: char) {
    c == ' ' || c == '\t' || c == '\n' || c == '\r' ||
    c as int == 0x0B || c as int == 0x0C || c as int == 0xA0 || c as int == 0x1680 ||
    (0x2000 <= c as int <= 0x200A) ||
    c as int == 0x2028 || c as int == 0x2029 || c as int == 0x202F ||
    c as int == 0x205F || c as int == 0x3000 || c as int == 0xFEFF
  }

  predicate IsDigit(c: char) { '0' <= c <= '9' }

  /** Every character of `s` is a decimal digit. */
  predicate OnlyDigits(s: string) {
    |s| == 0 || (IsDigit(s[|s| - 1]) && OnlyDigits(s[..|s| - 1]))
  }

  /** A non-empty run of decimal digits. */
  predicate AllDigits(s: string) {
    |s| > 0 && OnlyDigits(s)
  }

  function DigitChar(d: nat): (c: char)
    requires d < 10
    ensures IsDigit(c)
  {
    ('0' as int + d) as char
  }

  function DigitValue(c: char): (d: nat)
    requires IsDigit(c)
    ensures d < 10 && DigitChar(d) == c
  {
    c as int - '0' as int
  }

  /** `Number(s)` for a string of decimal digits. */
  function NumberValue(s: string): nat
    requires OnlyDigits(s)
  {
    if |s| == 0 then 0 else NumberValue(s[..|s| - 1]) * 10 + DigitValue(s[|s| - 1])
  }

  /** `s.length`: JavaScript counts UTF-16 code units, so a character
      outside the Basic Multilingual Plane counts twice. */
  function Utf16Length(s: string): (n: nat)
    ensures |s| <= n <= 2 * |s|
    ensures (forall i :: 0 <= i < |s| ==> s[i] as int < 0x1_0000) ==> n == |s|
  {
    if |s| == 0 then 0
    else Utf16Length(s[..|s| - 1]) + (if s[|s| - 1] as int >= 0x1_0000 then 2 else 1)
  }

  /** Four emoji make a string of length 8 in JavaScript. */
  lemma AstralCountsTwice()
    ensures Utf16Length("\U{1F600}\U{1F600}\U{1F600}\U{1F600}") == 8
  {
    var c := '\U{1F600}';
    assert c as int == 0x1F600;
    assert [c][..0] == [];
    assert Utf16Length([c]) == 2;
    assert [c, c][..1] == [c];
    assert Utf16Length([c, c]) == 4;
    assert [c, c, c][..2] == [c, c];
    assert Utf16Length([c, c, c]) == 6;
    assert [c, c, c, c][..3] == [c, c, c];
    assert "\U{1F600}\U{1F600}\U{1F600}\U{1F600}" == [c, c, c, c];
  }

  /** `String(n)` for a natural number. */
  function DecimalString(n: nat): (r: string)
    ensures |r| > 0
    decreases n
  {
    if n < 10 then [DigitChar(n)] else DecimalString(n / 10) + [DigitChar(n % 10)]
  }

  /** `String(n)` is a numeral that `Number` reads back as `n`. */
  lemma {:induction false} DecimalStringReads(n: nat)
    ensures AllDigits(DecimalString(n)) && NumberValue(DecimalString(n)) == n
    ensures n < 10 <==> |DecimalString(n)| == 1
    decreases n
  {
    var r := DecimalString(n);
    if n >= 10 {
      DecimalStringReads(n / 10);
      assert r[..|r| - 1] == DecimalString(n / 10);
    }
  }

  /** `s.padStart(2, "0")`. */
  function PadStart2(s: string): string {
    if |s| == 0 then "00" else if |s| == 1 then ['0'] + s else s
  }

  /** `String(n).padStart(2, "0")`. */
  function TwoDigits(n: nat): string {
    PadStart2(DecimalString(n))
  }

  /** Below 100, the padded numeral is exactly two digits and reads back as `n`. */
  lemma TwoDigitsOf(n: nat)
    requires n < 100
    ensures TwoDigits(n) == [DigitChar(n / 10), DigitChar(n % 10)]
    ensures AllDigits(TwoDigits(n)) && NumberValue(TwoDigits(n)) == n
  {
    var s := TwoDigits(n);
    var hi, lo := DigitChar(n / 10), DigitChar(n % 10);
    if n >= 10 {
      DecimalStringReads(n / 10);
      assert DecimalString(n / 10) == [hi];
      assert DecimalString(n) == [hi] + [lo];
    }
    assert s == [hi, lo];
    assert s[..1] == [hi] && [hi][..0] == [];
    assert NumberValue([hi]) == n / 10;
  }

  /** `x.toFixed(2)` where `x` is `cents / 100`: exact on integer cents. */
  function Fixed2(cents: int): string {
    var a := if cents < 0 then -cents else cents;
    (if cents < 0 then "-" else "") + DecimalString(a / 100) + "." + TwoDigits(a % 100)
  }

  /** `x.toString()` where `x` is `cents / 100`: the shortest decimal form
      (no trailing zeros in the fraction, no fraction for whole amounts). */
  function AmountText(cents: int): string {
    var a := if cents < 0 then -cents else cents;
    var frac := a % 100;
    (if cents < 0 then "-" else "") + DecimalString(a / 100) +
    (if frac == 0 then "" else if frac % 10 == 0 then "." + [DigitChar(frac / 10)] else "." + TwoDigits(frac))
  }

  predicate StartsWith(s: string, prefix: string) {
    |prefix| <= |s| && s[..|prefix|] == prefix
  }

  predicate EndsWith(s: string, suffix: string) {
    |suffix| <= |s| && s[|s| - |suffix|..] == suffix
  }

  /** `s.split(sep)` for a one-character separator: the pieces between
      separators, one more piece than there are separators. */
  function Split(s: string, sep: char): (r: seq<string>)
    ensures |r| >= 1
  {
    if |s| == 0 then [""]
    else
      var rest := Split(s[1..], sep);
      if s[0] == sep then [""] + rest else [[s[0]] + rest[0]] + rest[1..]
  }

  lemma {:induction false} SplitNoSeparator(s: string, sep: char)
    requires sep !in s
    ensures Split(s, sep) == [s]
  {
    if |s| > 0 {
      assert sep !in s[1..];
      SplitNoSeparator(s[1..], sep);
      assert [s[0]] + s[1..] == s;
    }
  }

  /** Splitting at the first separator peels off the text before it. */
  lemma {:induction false} SplitFirst(a: string, sep: char, b: string)
    requires sep !in a
    ensures Split(a + [sep] + b, sep) == [a] + Split(b, sep)
  {
    var s := a + [sep] + b;
    if |a| == 0 {
      assert s == [sep] + b;
      assert s[1..] == b;
    } else {
      assert s[1..] == a[1..] + [sep] + b;
      assert sep !in a[1..];
      SplitFirst(a[1..], sep, b);
      assert [a[0]] + a[1..] == a;
    }
  }

  /** `trimStart`. */
  function TrimStart(s: string): (r: string)
    ensures |r| <= |s| && r == s[|s| - |r|..]
    ensures |r| > 0 ==> !IsWhitespace(r[0])
  {
    if |s| > 0 && IsWhitespace(s[0]) then TrimStart(s[1..]) else s
  }

  /** `trimEnd`. */
  function TrimEnd(s: string): (r: string)
    ensures |r| <= |s| && r == s[..|r|]
    ensures |r| > 0 ==> !IsWhitespace(r[|r| - 1])
  {
    if |s| > 0 && IsWhitespace(s[|s| - 1]) then TrimEnd(s[..|s| - 1]) else s
  }

  /** `trim`. */
  function Trim(s: string): string {
    TrimEnd(TrimStart(s))
  }

  /** A string that ends in a non-whitespace character is its own `trimEnd`,
      and appending only whitespace to it changes nothing after `trimEnd`. */
  lemma {:induction false} TrimEndAppendWhitespace(a: string, w: string)
    requires |a| > 0 && !IsWhitespace(a[|a| - 1])
    requires forall i :: 0 <= i < |w| ==> IsWhitespace(w[i])
    ensures TrimEnd(a + w) == a
    decreases |w|
  {
    if |w| == 0 {
      assert a + w == a;
    } else {
      var s := a + w;
      assert IsWhitespace(s[|s| - 1]);
      assert s[..|s| - 1] == a + w[..|w| - 1];
      TrimEndAppendWhitespace(a, w[..|w| - 1]);
    }
  }

  /** Removing whitespace at both ends of a string whose first character is
      whitespace and second is not drops exactly that first character. */
  lemma TrimStartOne(c: char, rest: string)
    requires IsWhitespace(c) && |rest| > 0 && !IsWhitespace(rest[0])
    ensures TrimStart([c] + rest) == rest
  {
    assert ([c] + rest)[1..] == rest;
  }

  /** `parts.join(sep)`. */
  function Join(parts: seq<string>, sep: string): string {
    if |parts| == 0 then ""
    else if |parts| == 1 then parts[0]
    else parts[0] + sep + Join(parts[1..], sep)
  }

  /** Joining non-empty parts gives the empty string only for no parts. */
  lemma JoinOfNonEmpty(parts: seq<string>, sep: string)
    requires forall i :: 0 <= i < |parts| ==> |parts[i]| > 0
    ensures Join(parts, sep) == "" <==> |parts| == 0
  {
    if |parts| > 0 {
      assert |parts[0]| > 0;
    }
  }

  /** A character that is not a digit does not occur in a run of digits. */
  lemma {:induction false} DigitsAvoid(s: string, c: char)
    requires OnlyDigits(s) && !IsDigit(c)
    ensures c !in s
  {
    if |s| > 0 {
      DigitsAvoid(s[..|s| - 1], c);
      assert s == s[..|s| - 1] + [s[|s| - 1]];
    }
  }

  /** `String(n)` and `toFixed(2)` never produce a line break. */
  lemma NumbersHaveNoLineBreak(n: nat, cents: int)
    ensures '\n' !in DecimalString(n) && '\n' !in Fixed2(cents)
  {
    var a := if cents < 0 then -cents else cents;
    DecimalStringReads(n);
    DigitsAvoid(DecimalString(n), '\n');
    DecimalStringReads(a / 100);
    DigitsAvoid(DecimalString(a / 100), '\n');
    TwoDigitsOf(a % 100);
  }

  /** Splitting a join on its one-character separator gives the parts back,
      as long as no part contains the separator. */
  lemma {:induction false} SplitJoin(parts: seq<string>, sep: char)
    requires |parts| > 0
    requires forall i :: 0 <= i < |parts| ==> sep !in parts[i]
    ensures Split(Join(parts, [sep]), sep) == parts
  {
    if |parts| == 1 {
      SplitNoSeparator(parts[0], sep);
    } else {
      SplitJoin(parts[1..], sep);
      SplitFirst(parts[0], sep, Join(parts[1..], [sep]));
      assert parts == [parts[0]] + parts[1..];
    }
  }

  /** Some character of `s` is not whitespace. */
  predicate HasVisible(s: string) {
    exists i :: 0 <= i < |s| && !IsWhitespace(s[i])
  }

  /** Whitespace at the end of a string does not survive `trimEnd`. */
  lemma {:induction false} TrimEndBlankSuffix(s: string, w: string)
    requires forall i :: 0 <= i < |w| ==> IsWhitespace(w[i])
    ensures TrimEnd(s + w) == TrimEnd(s)
    decreases |w|
  {
    if |w| == 0 {
      assert s + w == s;
    } else {
      var t := s + w;
      assert IsWhitespace(t[|t| - 1]);
      assert t[..|t| - 1] == s + w[..|w| - 1];
      TrimEndBlankSuffix(s, w[..|w| - 1]);
    }
  }

  /** When `b` holds a visible character, `trimEnd` of `a + b` keeps all of
      `a` and trims only `b`. */
  lemma {:induction false} TrimEndVisibleSuffix(a: string, b: string)
    requires HasVisible(b)
    ensures TrimEnd(a + b) == a + TrimEnd(b)
    decreases |b|
  {
    var t := a + b;
    var k :| 0 <= k < |b| && !IsWhitespace(b[k]);
    if IsWhitespace(b[|b| - 1]) {
      var b' := b[..|b| - 1];
      assert k < |b'| && b'[k] == b[k];
      assert HasVisible(b');
      assert t[..|t| - 1] == a + b';
      TrimEndVisibleSuffix(a, b');
    } else {
      assert !IsWhitespace(t[|t| - 1]);
    }
  }

  /** `trim` of a text framed by one leading whitespace character and a
      whitespace-only tail, where `head` starts with visible text and `notes`
      holds visible text: what is left is `head` and `notes` without their
      trailing whitespace. */
  lemma TrimFramedVisible(c: char, head: string, notes: string, tail: string)
    requires IsWhitespace(c) && |head| > 0 && !IsWhitespace(head[0])
    requires HasVisible(notes)
    requires forall i :: 0 <= i < |tail| ==> IsWhitespace(tail[i])
    ensures Trim([c] + head + notes + tail) == head + TrimEnd(notes)
  {
    var body := head + notes + tail;
    assert [c] + head + notes + tail == [c] + body;
    TrimAfterOne(c, body);
    TrimEndFramed(head, notes, tail);
  }

  /** `trimEnd` of `head + notes + tail`, with visible text in `notes` and a
      whitespace-only `tail`, keeps `head` whole. */
  lemma TrimEndFramed(head: string, notes: string, tail: string)
    requires HasVisible(notes)
    requires forall i :: 0 <= i < |tail| ==> IsWhitespace(tail[i])
    ensures TrimEnd(head + notes + tail) == head + TrimEnd(notes)
  {
    assert head + notes + tail == (head + notes) + tail;
    TrimEndBlankSuffix(head + notes, tail);
    TrimEndVisibleSuffix(head, notes);
  }

  /** The same frame with blank `notes`, where `head` ends in a visible
      character and one whitespace character: what is left is `head` without
      its last character. */
  lemma TrimFramedBlank(c: char, head: string, notes: string, tail: string)
    requires IsWhitespace(c) && |head| >= 2 && !IsWhitespace(head[0])
    requires !IsWhitespace(head[|head| - 2]) && IsWhitespace(head[|head| - 1])
    requires forall i :: 0 <= i < |notes| ==> IsWhitespace(notes[i])
    requires forall i :: 0 <= i < |tail| ==> IsWhitespace(tail[i])
    ensures Trim([c] + head + notes + tail) == head[..|head| - 1]
  {
    var visible := head[..|head| - 1];
    var last := [head[|head| - 1]];
    var blank := last + notes + tail;
    var body := visible + blank;
    assert [c] + head + notes + tail == [c] + body by {
      assert head == visible + last;
    }
    BlankConcat(last, notes);
    BlankConcat(last + notes, tail);
    TrimEndAppendWhitespace(visible, blank);
    TrimAfterOne(c, body);
  }

  /** `trim` of a whitespace character followed by a string that starts
      with visible text is the `trimEnd` of that string. */
  lemma TrimAfterOne(c: char, body: string)
    requires IsWhitespace(c) && |body| > 0 && !IsWhitespace(body[0])
    ensures Trim([c] + body) == TrimEnd(body)
  {
    TrimStartOne(c, body);
  }

  /** Two whitespace-only strings make a whitespace-only string. */
  lemma BlankConcat(a: string, b: string)
    requires forall i :: 0 <= i < |a| ==> IsWhitespace(a[i])
    requires forall i :: 0 <= i < |b| ==> IsWhitespace(b[i])
    ensures forall i :: 0 <= i < |a + b| ==> IsWhitespace((a + b)[i])
  {
    forall i | 0 <= i < |a + b| ensures IsWhitespace((a + b)[i]) {
      if i >= |a| {
        assert (a + b)[i] == b[i - |a|];
      }
    }
  }

  /** `trimStart` removes only whitespace: everything it drops is
      whitespace. */
  lemma {:induction false} TrimStartDropsWhitespace(s: string)
    ensures forall i :: 0 <= i < |s| - |TrimStart(s)| ==> IsWhitespace(s[i])
  {
    if |s| > 0 && IsWhitespace(s[0]) {
      TrimStartDropsWhitespace(s[1..]);
      forall i | 1 <= i < |s| - |TrimStart(s)| ensures IsWhitespace(s[i]) {
        assert s[i] == s[1..][i - 1];
      }
    }
  }

  /** A string is empty after `trim` exactly when it is all whitespace. */
  lemma {:induction false} TrimEmptyIffBlank(s: string)
    ensures Trim(s) == "" <==> forall i :: 0 <= i < |s| ==> IsWhitespace(s[i])
  {
    var t := TrimStart(s);
    TrimStartDropsWhitespace(s);
    if Trim(s) == "" && |t| > 0 {
      assert TrimEnd(t) == t[..0];
      assert !IsWhitespace(t[0]);
      TrimEndKeepsVisible(t);
    }
  }

  /** `trimEnd` of a string that starts with a visible character keeps at
      least that character. */
  lemma {:induction false} TrimEndKeepsVisible(s: string)
    requires |s| > 0 && !IsWhitespace(s[0])
    ensures |TrimEnd(s)| > 0
  {
    if IsWhitespace(s[|s| - 1]) {
      TrimEndKeepsVisible(s[..|s| - 1]);
    }
  }

  /** The numerals `AmountText` writes use only digits, `-` and `.`. */
  lemma AmountTextIsNumeral(cents: int)
    ensures forall i :: 0 <= i < |AmountText(cents)| ==>
      AmountText(cents)[i] in "-." || IsDigit(AmountText(cents)[i])
  {
    var a := if cents < 0 then -cents else cents;
    DecimalStringReads(a / 100);
    OnlyDigitsAreDigits(DecimalString(a / 100));
    TwoDigitsOf(a % 100);
  }

  lemma {:induction false} OnlyDigitsAreDigits(s: string)
    requires OnlyDigits(s)
    ensures forall i :: 0 <= i < |s| ==> IsDigit(s[i])
  {
    if |s| > 0 {
      OnlyDigitsAreDigits(s[..|s| - 1]);
      assert forall i :: 0 <= i < |s| - 1 ==> s[i] == s[..|s| - 1][i];
    }
  }
}
