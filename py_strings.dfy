/** The parts of Python's `str` and `int()` that the handlers rely on:
    whitespace stripping, splitting on a separator, substring tests,
    decimal rendering and decimal parsing. */
module PyStrings {
  import opened Wrappers

  /** Python's `str.isspace` for one character (the Unicode whitespace set). */
  predicate IsSpace(c: char) {
    c == ' ' || ('\t' <= c <= '\r') || ('\U{1C}' <= c <= '\U{1F}') ||
    c == '\U{85}' || c == '\U{A0}' || c == '\U{1680}' ||
    ('\U{2000}' <= c <= '\U{200A}') || c == '\U{2028}' || c == '\U{2029}' ||
    c == '\U{202F}' || c == '\U{205F}' || c == '\U{3000}'
  }

  /** Python truthiness of an optional form value: present and non-empty. */
  predicate Truthy(v: Option<string>) {
    v.Some? && v.value != ""
  }

  /** Python truthiness of a nullable float: present and not 0.0. */
  predicate TruthyReal(v: Option<real>) {
    v.Some? && v.value != 0.0
  }

  /** `needle in hay` for two strings: a contiguous occurrence. */
  predicate IsSubstring(needle: string, hay: string) {
    exists i :: 0 <= i <= |hay| - |needle| && OccursAt(needle, hay, i)
  }

  /** `needle` occurs in `hay` starting at index `i`. */
  predicate OccursAt(needle: string, hay: string, i: int) {
    0 <= i <= |hay| - |needle| && hay[i..i + |needle|] == needle
  }

  // ---------------------------------------------------------------------
  // str.strip()
  // ---------------------------------------------------------------------

  /** Number of whitespace characters at the start of `s`. */
  function LeadingSpaces(s: string): (n: nat)
    ensures n <= |s|
  {
    if |s| > 0 && IsSpace(s[0]) then 1 + LeadingSpaces(s[1..]) else 0
  }

  /** The leading run is all whitespace and stops at the first other character. */
  lemma {:induction false} LeadingSpacesSpec(s: string)
    ensures forall k :: 0 <= k < LeadingSpaces(s) ==> IsSpace(s[k])
    ensures LeadingSpaces(s) < |s| ==> !IsSpace(s[LeadingSpaces(s)])
    decreases |s|
  {
    if |s| > 0 && IsSpace(s[0]) {
      LeadingSpacesSpec(s[1..]);
      forall k | 0 <= k < LeadingSpaces(s) ensures IsSpace(s[k]) {
        if k > 0 { assert s[k] == s[1..][k - 1]; }
      }
    }
  }

  /** Number of whitespace characters at the end of `s`. */
  function TrailingSpaces(s: string): (n: nat)
    ensures n <= |s|
  {
    if |s| > 0 && IsSpace(s[|s| - 1]) then 1 + TrailingSpaces(s[..|s| - 1]) else 0
  }

  /** The trailing run is all whitespace and stops at the last other character. */
  lemma {:induction false} TrailingSpacesSpec(s: string)
    ensures forall k :: |s| - TrailingSpaces(s) <= k < |s| ==> IsSpace(s[k])
    ensures TrailingSpaces(s) < |s| ==> !IsSpace(s[|s| - 1 - TrailingSpaces(s)])
    decreases |s|
  {
    if |s| > 0 && IsSpace(s[|s| - 1]) {
      var init := s[..|s| - 1];
      TrailingSpacesSpec(init);
      forall k | |s| - TrailingSpaces(s) <= k < |s| ensures IsSpace(s[k]) {
        if k < |s| - 1 { assert s[k] == init[k]; }
      }
    }
  }

  /** `s.strip()`: `s` without its leading and trailing whitespace. */
  function Strip(s: string): (r: string)
    ensures |r| <= |s|
  {
    var t := s[LeadingSpaces(s)..];
    t[..|t| - TrailingSpaces(t)]
  }

  /** What the strip is: the slice of `s` between its leading and its trailing
      whitespace, empty exactly when `s` is all whitespace, and otherwise
      neither starting nor ending with whitespace. */
  lemma StripSpec(s: string)
    ensures LeadingSpaces(s) + |Strip(s)| <= |s|
    ensures Strip(s) == s[LeadingSpaces(s)..LeadingSpaces(s) + |Strip(s)|]
    ensures forall k :: 0 <= k < LeadingSpaces(s) ==> IsSpace(s[k])
    ensures forall k :: LeadingSpaces(s) + |Strip(s)| <= k < |s| ==> IsSpace(s[k])
    ensures Strip(s) == "" <==> forall k :: 0 <= k < |s| ==> IsSpace(s[k])
    ensures Strip(s) != "" ==> !IsSpace(Strip(s)[0]) && !IsSpace(Strip(s)[|Strip(s)| - 1])
  {
    var n := LeadingSpaces(s);
    var t := s[n..];
    var m := TrailingSpaces(t);
    var r := Strip(s);
    LeadingSpacesSpec(s);
    TrailingSpacesSpec(t);
    assert r == t[..|t| - m];
    assert r == s[n..n + |r|];
    forall k | n + |r| <= k < |s| ensures IsSpace(s[k]) {
      assert s[k] == t[k - n];
    }
    if r == "" {
      assert |t| == m;
    }
    if r != "" {
      assert r[0] == s[n];
      assert r[|r| - 1] == t[|t| - 1 - m];
    }
  }

  /** A string that neither starts nor ends with whitespace is its own strip. */
  lemma StripUnpadded(s: string)
    requires s == "" || (!IsSpace(s[0]) && !IsSpace(s[|s| - 1]))
    ensures Strip(s) == s
  {
    if s != "" {
      assert LeadingSpaces(s) == 0;
      assert TrailingSpaces(s) == 0;
    }
  }

  /** Stripping twice is stripping once. */
  lemma StripIdempotent(s: string)
    ensures Strip(Strip(s)) == Strip(s)
  {
    StripSpec(s);
    StripUnpadded(Strip(s));
  }

  // ---------------------------------------------------------------------
  // str.split(",") and its inverse ",".join(...)
  // ---------------------------------------------------------------------

  /** `s.split(sep)` for a one-character separator: always at least one piece,
      empty pieces kept (`"".split(",") == [""]`, `"a,,b"` gives three pieces). */
  function Split(s: string, sep: char): (r: seq<string>)
    ensures |r| >= 1
  {
    if s == [] then [""]
    else if s[0] == sep then [""] + Split(s[1..], sep)
    else
      var rest := Split(s[1..], sep);
      [[s[0]] + rest[0]] + rest[1..]
  }

  /** `sep.join(pieces)`. */
  function Join(pieces: seq<string>, sep: char): string
    requires |pieces| >= 1
  {
    if |pieces| == 1 then pieces[0] else pieces[0] + [sep] + Join(pieces[1..], sep)
  }

  /** No piece of a split contains the separator. */
  lemma {:induction false} SplitPiecesFree(s: string, sep: char)
    ensures forall i, k :: 0 <= i < |Split(s, sep)| && 0 <= k < |Split(s, sep)[i]| ==> Split(s, sep)[i][k] != sep
    decreases |s|
  {
    if s != [] {
      var rest := Split(s[1..], sep);
      SplitPiecesFree(s[1..], sep);
      var r := Split(s, sep);
      forall i, k | 0 <= i < |r| && 0 <= k < |r[i]| ensures r[i][k] != sep {
        if s[0] == sep {
          assert r == [""] + rest;
          if i > 0 { assert r[i] == rest[i - 1]; }
        } else if i == 0 {
          assert r[0] == [s[0]] + rest[0];
          if k > 0 { assert r[0][k] == rest[0][k - 1]; }
        } else {
          assert r[i] == rest[i];
        }
      }
    }
  }

  /** Joining the pieces of a split gives back the original string. */
  lemma {:induction false} JoinSplit(s: string, sep: char)
    ensures Join(Split(s, sep), sep) == s
    decreases |s|
  {
    if s == [] {
    } else if s[0] == sep {
      JoinSplit(s[1..], sep);
      assert Split(s, sep)[1..] == Split(s[1..], sep);
    } else {
      var rest := Split(s[1..], sep);
      JoinSplit(s[1..], sep);
      if |rest| == 1 {
        assert Join(Split(s, sep), sep) == [s[0]] + rest[0];
      } else {
        assert Split(s, sep)[1..] == rest[1..];
        assert Join(Split(s, sep), sep) == [s[0]] + rest[0] + [sep] + Join(rest[1..], sep);
      }
      assert [s[0]] + s[1..] == s;
    }
  }

  /** Splitting a join of separator-free pieces gives back the pieces. */
  lemma {:induction false} SplitJoin(pieces: seq<string>, sep: char)
    requires |pieces| >= 1
    requires forall i, k :: 0 <= i < |pieces| && 0 <= k < |pieces[i]| ==> pieces[i][k] != sep
    ensures Split(Join(pieces, sep), sep) == pieces
    decreases |pieces|, |pieces[0]|
  {
    if |pieces| == 1 {
      SplitPlain(pieces[0], sep);
    } else {
      var tail := Join(pieces[1..], sep);
      SplitJoin(pieces[1..], sep);
      SplitPrefixed(pieces[0], tail, sep);
      assert [pieces[0]] + pieces[1..] == pieces;
    }
  }

  /** A separator-free string splits into itself. */
  lemma {:induction false} SplitPlain(w: string, sep: char)
    requires forall k :: 0 <= k < |w| ==> w[k] != sep
    ensures Split(w, sep) == [w]
    decreases |w|
  {
    if w != [] {
      SplitPlain(w[1..], sep);
      assert [w[0]] + w[1..] == w;
    }
  }

  /** A separator-free word in front of `sep + t` becomes its own first piece. */
  lemma {:induction false} SplitPrefixed(w: string, t: string, sep: char)
    requires forall k :: 0 <= k < |w| ==> w[k] != sep
    ensures Split(w + [sep] + t, sep) == [w] + Split(t, sep)
    decreases |w|
  {
    if w == [] {
      assert w + [sep] + t == [sep] + t;
      assert ([sep] + t)[1..] == t;
    } else {
      var s := w + [sep] + t;
      assert s[0] == w[0];
      assert s[1..] == w[1..] + [sep] + t;
      SplitPrefixed(w[1..], t, sep);
      assert [w[0]] + w[1..] == w;
    }
  }

  // ---------------------------------------------------------------------
  // Decimal rendering (str(n)) and int()
  // ---------------------------------------------------------------------

  predicate IsDigit(c: char) {
    '0' <= c <= '9'
  }

  function DigitChar(d: nat): char
    requires d < 10
  {
    ('0' as int + d) as char
  }

  function DigitValue(c: char): nat
    requires IsDigit(c)
  {
    (c as int - '0' as int) as nat
  }

  /** `str(n)` for a natural number: its decimal digits, most significant first. */
  function NatToString(n: nat): (r: string)
    ensures |r| >= 1
  {
    if n < 10 then [DigitChar(n)] else NatToString(n / 10) + [DigitChar(n % 10)]
  }

  /** Every character of `str(n)` is a decimal digit. */
  lemma {:induction false} NatToStringDigits(n: nat)
    ensures forall k :: 0 <= k < |NatToString(n)| ==> IsDigit(NatToString(n)[k])
    decreases n
  {
    if n >= 10 {
      NatToStringDigits(n / 10);
    }
  }

  /** `str(n)` for any integer. */
  function IntToString(n: int): string {
    if n < 0 then "-" + NatToString(-n) else NatToString(n)
  }

  /** The digit body `int()` accepts: ASCII digits, with single underscores
      allowed between two digits (`"1_000"`), nothing else. */
  predicate IsDigitBody(b: string) {
    |b| > 0 && IsDigit(b[0]) && IsDigit(b[|b| - 1]) &&
    (forall k :: 0 <= k < |b| ==> IsDigit(b[k]) || b[k] == '_') &&
    (forall k :: 0 <= k < |b| - 1 && b[k] == '_' ==> b[k + 1] != '_')
  }

  /** Value of a digit body, underscores skipped. */
  function DigitsValue(b: string): nat
    requires forall k :: 0 <= k < |b| ==> IsDigit(b[k]) || b[k] == '_'
  {
    if b == [] then 0
    else if b[|b| - 1] == '_' then DigitsValue(b[..|b| - 1])
    else 10 * DigitsValue(b[..|b| - 1]) + DigitValue(b[|b| - 1])
  }

  /** CPython's default limit on the number of digits an `int()` or `str()`
      conversion in base 10 accepts (`sys.int_info.default_max_str_digits`). */
  const MaxStrDigits := 4300

  /** Number of digits of a digit body, underscores not counted. */
  function DigitCount(b: string): nat {
    if b == [] then 0 else DigitCount(b[..|b| - 1]) + (if b[|b| - 1] == '_' then 0 else 1)
  }

  /** A digit body `int()` converts: well formed and within the digit limit. */
  predicate IsConvertible(b: string) {
    IsDigitBody(b) && DigitCount(b) <= MaxStrDigits
  }

  /** The whitespace `int()` skips around a number: every `str.isspace`
      character except the separators U+001C..U+001F, which CPython leaves in
      place (non-ASCII whitespace is first mapped to a space, ASCII is copied
      unchanged, and only ASCII whitespace is then skipped). */
  predicate IntSpace(c: char) {
    IsSpace(c) && !('\U{1C}' <= c <= '\U{1F}')
  }

  /** Number of `int()` whitespace characters at the start of `s`. */
  function IntLeadingSpaces(s: string): (n: nat)
    ensures n <= |s|
  {
    if |s| > 0 && IntSpace(s[0]) then 1 + IntLeadingSpaces(s[1..]) else 0
  }

  /** Number of `int()` whitespace characters at the end of `s`. */
  function IntTrailingSpaces(s: string): (n: nat)
    ensures n <= |s|
  {
    if |s| > 0 && IntSpace(s[|s| - 1]) then 1 + IntTrailingSpaces(s[..|s| - 1]) else 0
  }

  /** The text `int()` converts once the surrounding whitespace is skipped. */
  function IntStrip(s: string): (r: string)
    ensures forall k :: 0 <= k < |r| ==> r[k] in s
  {
    var t := s[IntLeadingSpaces(s)..];
    var r := t[..|t| - IntTrailingSpaces(t)];
    assert forall k :: 0 <= k < |r| ==> r[k] == s[IntLeadingSpaces(s) + k];
    r
  }

  /** Text that neither starts nor ends with `int()` whitespace is left as is. */
  lemma IntStripUnpadded(s: string)
    requires s != [] && !IntSpace(s[0]) && !IntSpace(s[|s| - 1])
    ensures IntStrip(s) == s
  {
    assert IntLeadingSpaces(s) == 0;
    assert IntTrailingSpaces(s) == 0;
  }

  /** What `int()` makes of the text left once whitespace is skipped: an
      optional sign and a digit body within the digit limit. */
  function ParseStripped(t: string): (r: Option<int>)
    ensures r.Some? ==> exists k :: 0 <= k < |t| && IsDigit(t[k])
  {
    if |t| > 0 && (t[0] == '-' || t[0] == '+') then
      if IsConvertible(t[1..]) then
        assert IsDigit(t[1]);
        Some(if t[0] == '-' then -(DigitsValue(t[1..]) as int) else DigitsValue(t[1..]))
      else None
    else if IsConvertible(t) then
      assert IsDigit(t[0]);
      Some(DigitsValue(t))
    else None
  }

  /** Python's `int(text)` in base 10: `None` where Python raises `ValueError`,
      which includes a digit body longer than the digit limit. */
  function ParseInt(text: string): (r: Option<int>)
    ensures r.Some? ==> exists c :: c in text && IsDigit(c)
  {
    ParseStripped(IntStrip(text))
  }

  /** The handlers' `try: int(text) except ValueError: 0`. */
  function ParseIntOrZero(text: string): (v: int)
    ensures ParseInt(text).Some? ==> v == ParseInt(text).value
    ensures ParseInt(text).None? ==> v == 0
  {
    match ParseInt(text)
    case Some(n) => n
    case None => 0
  }

  lemma {:induction false} DigitsValueOfNat(n: nat)
    ensures forall k :: 0 <= k < |NatToString(n)| ==> IsDigit(NatToString(n)[k])
    ensures DigitsValue(NatToString(n)) == n
    decreases n
  {
    NatToStringDigits(n);
    var r := NatToString(n);
    if n < 10 {
      assert r[..|r| - 1] == [];
    } else {
      DigitsValueOfNat(n / 10);
      assert r[..|r| - 1] == NatToString(n / 10);
    }
  }

  /** A body of only digits has one digit per character. */
  lemma {:induction false} AllDigitsCount(d: string)
    requires forall k :: 0 <= k < |d| ==> IsDigit(d[k])
    ensures DigitCount(d) == |d|
    decreases |d|
  {
    if d != [] {
      AllDigitsCount(d[..|d| - 1]);
    }
  }

  /** `int(str(n)) == n` for every integer `n` whose decimal form is within
      the digit limit (beyond it `str(n)` itself raises). */
  lemma ParseIntToString(n: int)
    requires |NatToString(if n < 0 then -n else n)| <= MaxStrDigits
    ensures ParseInt(IntToString(n)) == Some(n)
  {
    if n < 0 {
      ParseNegative(-n);
    } else {
      ParseNatural(n);
    }
  }

  /** A nonempty run of digits within the limit parses to its value. */
  lemma DigitsParse(d: string)
    requires |d| >= 1 && |d| <= MaxStrDigits
    requires forall k :: 0 <= k < |d| ==> IsDigit(d[k])
    ensures ParseInt(d) == Some(DigitsValue(d))
  {
    AllDigitsCount(d);
    DigitsAreBody(d);
    NotSpace(d[0]);
    NotSpace(d[|d| - 1]);
    IntStripUnpadded(d);
    assert d[0] != '-' && d[0] != '+';
    assert ParseStripped(d) == Some(DigitsValue(d));
  }

  /** The same run after a minus sign parses to minus its value. */
  lemma NegatedDigitsParse(d: string, v: nat)
    requires |d| >= 1 && |d| <= MaxStrDigits
    requires forall k :: 0 <= k < |d| ==> IsDigit(d[k])
    requires DigitsValue(d) == v
    ensures ParseInt("-" + d) == Some(-(v as int))
  {
    AllDigitsCount(d);
    DigitsAreBody(d);
    var s := "-" + d;
    assert s[1..] == d;
    NotSpace(d[|d| - 1]);
    SignedParse(s, v);
  }

  lemma SignedParse(t: string, v: nat)
    requires |t| > 1 && t[0] == '-' && IsConvertible(t[1..]) && !IntSpace(t[|t| - 1])
    requires DigitsValue(t[1..]) == v
    ensures ParseInt(t) == Some(-(v as int))
  {
    IntStripUnpadded(t);
    assert ParseStripped(t) == Some(-(v as int));
  }

  lemma ParseNatural(m: nat)
    requires |NatToString(m)| <= MaxStrDigits
    ensures ParseInt(NatToString(m)) == Some(m)
  {
    DigitsValueOfNat(m);
    DigitsParse(NatToString(m));
  }

  lemma ParseNegative(m: nat)
    requires |NatToString(m)| <= MaxStrDigits
    ensures ParseInt("-" + NatToString(m)) == Some(-(m as int))
  {
    DigitsValueOfNat(m);
    NegatedDigitsParse(NatToString(m), m);
  }

  lemma DigitsAreBody(d: string)
    requires |d| >= 1
    requires forall k :: 0 <= k < |d| ==> IsDigit(d[k])
    ensures IsDigitBody(d)
  {
  }

  lemma NotSpace(c: char)
    requires IsDigit(c) || c == '-'
    ensures !IsSpace(c)
  {
  }

  /** A digit body with more digits than the limit raises ValueError, so the
      handlers store 0 for it. */
  lemma TooManyDigitsRejected(text: string)
    requires IsDigitBody(text) && DigitCount(text) > MaxStrDigits
    ensures ParseInt(text) == None
    ensures ParseIntOrZero(text) == 0
  {
    NotSpace(text[0]);
    NotSpace(text[|text| - 1]);
    IntStripUnpadded(text);
  }

  /** Text that is empty or only whitespace never parses. */
  lemma ParseIntBlank(text: string)
    requires forall k :: 0 <= k < |text| ==> IsSpace(text[k])
    ensures ParseInt(text) == None
    ensures ParseIntOrZero(text) == 0
  {
  }

  /** The trailing run stops before a first character that is not skipped. */
  lemma {:induction false} IntTrailingStops(s: string)
    requires |s| > 0 && !IntSpace(s[0])
    ensures IntTrailingSpaces(s) < |s|
    decreases |s|
  {
    if IntSpace(s[|s| - 1]) {
      var init := s[..|s| - 1];
      assert init[0] == s[0];
      IntTrailingStops(init);
    }
  }

  /** The leading run stops before a last character that is not skipped. */
  lemma {:induction false} IntLeadingStops(s: string)
    requires |s| > 0 && !IntSpace(s[|s| - 1])
    ensures IntLeadingSpaces(s) < |s|
    decreases |s|
  {
    if IntSpace(s[0]) {
      var rest := s[1..];
      assert rest[|rest| - 1] == s[|s| - 1];
      IntLeadingStops(rest);
    }
  }

  /** U+001C..U+001F are whitespace to `str.strip()` but not to `int()`: text
      that starts with one of them is not a number. */
  lemma SeparatorBeforeRejected(c: char, text: string)
    requires '\U{1C}' <= c <= '\U{1F}'
    ensures IsSpace(c) && !IntSpace(c)
    ensures ParseInt([c] + text) == None
    ensures ParseIntOrZero([c] + text) == 0
  {
    var s := [c] + text;
    assert IntLeadingSpaces(s) == 0;
    IntTrailingStops(s);
    var r := IntStrip(s);
    assert r[0] == c;
  }

  /** Likewise for text that ends with one of them. */
  lemma SeparatorAfterRejected(text: string, c: char)
    requires '\U{1C}' <= c <= '\U{1F}'
    ensures ParseInt(text + [c]) == None
    ensures ParseIntOrZero(text + [c]) == 0
  {
    var s := text + [c];
    assert s[|s| - 1] == c;
    IntLeadingStops(s);
    var t := s[IntLeadingSpaces(s)..];
    assert t[|t| - 1] == c;
    assert IntTrailingSpaces(t) == 0;
    var r := IntStrip(s);
    assert r == t && r[|r| - 1] == c;
  }

  /** The form value "\U{1C}85" strips to "85" yet converts to nothing. */
  lemma SeparatorExample()
    ensures Strip("\U{1C}85") == "85"
    ensures ParseInt("\U{1C}85") == None
    ensures ParseIntOrZero("\U{1C}85") == 0
  {
    assert "\U{1C}85" == ['\U{1C}'] + "85";
    SeparatorBeforeRejected('\U{1C}', "85");
    assert LeadingSpaces("\U{1C}85") == 1;
  }
}
