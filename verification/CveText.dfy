/** Versions as text (cve_feed.py): "1.1.1", and with OpenSSL's patch letters "1.1.1w". */
module CveText {
  import opened Common
  import opened CveVersions

  // ----------------------------------------------------------------- reading

  predicate IsDigit(c: char) {
    '0' <= c <= '9'
  }

  function DigitOf(c: char): nat
    requires IsDigit(c)
  {
    c as int - '0' as int
  }

  predicate IsSpace(c: char) {
    c == ' ' || c == '\t' || c == '\n' || c == '\r'
  }

  function TrimLeft(s: string): string {
    if s != [] && IsSpace(s[0]) then TrimLeft(s[1..]) else s
  }

  function TrimRight(s: string): string {
    if s != [] && IsSpace(s[|s| - 1]) then TrimRight(s[..|s| - 1]) else s
  }

  function Trim(s: string): string {
    TrimRight(TrimLeft(s))
  }

  /** Numbers separated by single dots, left to right: those read so far, and
      the digits of the one being read. */
  function Scan(s: string, done: Version, current: Option<nat>): Option<Version>
    decreases |s|
  {
    if s == [] then (if current.Some? then Some(done + [current.value]) else None)
    else if IsDigit(s[0]) then
      Scan(s[1..], done, Some((if current.Some? then current.value else 0) * 10 + DigitOf(s[0])))
    else if s[0] == '.' && current.Some? then Scan(s[1..], done + [current.value], None)
    else None
  }

  predicate IsLetter(c: char) {
    'a' <= c <= 'z' || 'A' <= c <= 'Z'
  }

  /** a is 1, z is 26, in either case. */
  function LetterNumber(c: char): (n: nat)
    requires IsLetter(c)
    ensures 1 <= n <= 26
  {
    if 'a' <= c then c as int - 96 else c as int - 64
  }

  function VersionOf(text: string, letters: bool): Option<Version> {
    var t := Trim(text);
    match Scan(t, [], None)
    case Some(v) => Some(v)
    case None =>
      if letters && t != [] && IsLetter(t[|t| - 1]) then
        match Scan(t[..|t| - 1], [], None)
        case Some(v) => Some(v + [LetterNumber(t[|t| - 1])])
        case None => None
      else None
  }

  // ----------------------------------------------------------------- writing

  function Digit(d: nat): char
    requires d < 10
  {
    (d + '0' as int) as char
  }

  function Digits(n: nat): (s: string)
    ensures s != [] && forall i | 0 <= i < |s| :: IsDigit(s[i])
  {
    if n < 10 then [Digit(n)] else Digits(n / 10) + [Digit(n % 10)]
  }

  function Dotted(v: Version): (s: string)
    requires v != []
    ensures s != [] && IsDigit(s[0]) && IsDigit(s[|s| - 1])
  {
    if |v| == 1 then Digits(v[0]) else Digits(v[0]) + "." + Dotted(v[1..])
  }

  function Letter(n: nat): (c: char)
    requires 1 <= n <= 26
    ensures IsLetter(c) && LetterNumber(c) == n
  {
    (96 + n) as char
  }

  function Format(v: Version, letters: bool): string
    requires v != []
  {
    if letters && |v| == 4 && 1 <= v[3] <= 26 then Dotted(v[..3]) + [Letter(v[3])] else Dotted(v)
  }

  // ---------------------------------------------------- which texts are versions

  predicate IsNumeral(g: string) {
    g != [] && forall i | 0 <= i < |g| :: IsDigit(g[i])
  }

  /** The number its digits write, after those read before. */
  function ValueFrom(before: nat, g: string): nat
    requires forall i | 0 <= i < |g| :: IsDigit(g[i])
    decreases |g|
  {
    if g == [] then before else ValueFrom(before * 10 + DigitOf(g[0]), g[1..])
  }

  function WithDots(groups: seq<string>): string {
    if groups == [] then "" else if |groups| == 1 then groups[0] else groups[0] + "." + WithDots(groups[1..])
  }

  /** The text is numerals with single dots between them, and these the numbers. */
  ghost predicate Writes(text: string, groups: seq<string>, v: Version) {
    && text == WithDots(groups) && groups != [] && |groups| == |v|
    && forall i | 0 <= i < |groups| :: IsNumeral(groups[i]) && ValueFrom(0, groups[i]) == v[i]
  }

  ghost predicate IsWritten(text: string, v: Version) {
    exists groups :: Writes(text, groups, v)
  }

  /** What may follow the first digits of a numeral. */
  ghost predicate WritesOn(text: string, digits: string, groups: seq<string>, current: nat, v: Version) {
    && (forall i | 0 <= i < |digits| :: IsDigit(digits[i])) && v != [] && v[0] == ValueFrom(current, digits)
    && if groups == [] then text == digits && |v| == 1
       else exists rest :: text == digits + "." + rest && Writes(rest, groups, v[1..])
  }

  lemma {:induction false} ScanDigitsOn(digits: string, rest: string, done: Version, current: Option<nat>)
    requires forall i | 0 <= i < |digits| :: IsDigit(digits[i])
    requires digits != [] || current.Some?
    ensures Scan(digits + rest, done, current) == Scan(rest, done, Some(ValueFrom(current.GetOr(0), digits)))
    decreases |digits|
  {
    if digits == [] {
      assert digits + rest == rest;
    } else {
      assert (digits + rest)[1..] == digits[1..] + rest;
      ScanDigitsOn(digits[1..], rest, done, Some(current.GetOr(0) * 10 + DigitOf(digits[0])));
    }
  }

  lemma {:induction false} WrittenIsScanned(text: string, groups: seq<string>, v: Version, done: Version)
    requires Writes(text, groups, v)
    ensures Scan(text, done, None) == Some(done + v)
    decreases |groups|
  {
    if |groups| == 1 {
      assert text == groups[0] + "";
      ScanDigitsOn(groups[0], "", done, None);
      assert done + v == done + [v[0]];
    } else {
      var rest := WithDots(groups[1..]);
      assert text == groups[0] + ("." + rest);
      ScanDigitsOn(groups[0], "." + rest, done, None);
      assert ("." + rest)[1..] == rest;
      WrittenIsScanned(rest, groups[1..], v[1..], done + [v[0]]);
      assert done + [v[0]] + v[1..] == done + v;
    }
  }

  lemma {:induction false} ScannedOn(text: string, done: Version, current: nat, read: Version)
    returns (digits: string, groups: seq<string>, v: Version)
    requires Scan(text, done, Some(current)) == Some(read)
    ensures read == done + v && WritesOn(text, digits, groups, current, v)
    decreases |text|
  {
    if text == [] {
      digits, groups, v := [], [], [current];
    } else if IsDigit(text[0]) {
      digits, groups, v := ScannedOn(text[1..], done, current * 10 + DigitOf(text[0]), read);
      DigitBefore(text, digits, groups, current, v);
      digits := [text[0]] + digits;
    } else {
      var more;
      groups, more := ScannedIsWritten(text[1..], done + [current], read);
      digits, v := [], [current] + more;
      assert v[1..] == more && text == "" + "." + text[1..];
      assert done + [current] + more == done + v;
    }
  }

  lemma DigitBefore(text: string, digits: string, groups: seq<string>, current: nat, v: Version)
    requires text != [] && IsDigit(text[0])
    requires WritesOn(text[1..], digits, groups, current * 10 + DigitOf(text[0]), v)
    ensures WritesOn(text, [text[0]] + digits, groups, current, v)
  {
    var all := [text[0]] + digits;
    assert all[1..] == digits && text == [text[0]] + text[1..];
    if groups != [] {
      var rest :| text[1..] == digits + "." + rest && Writes(rest, groups, v[1..]);
      assert text == all + "." + rest;
    }
  }

  lemma {:induction false} ScannedIsWritten(text: string, done: Version, read: Version)
    returns (groups: seq<string>, v: Version)
    requires Scan(text, done, None) == Some(read)
    ensures read == done + v && Writes(text, groups, v)
    decreases |text|
  {
    var digits, more;
    digits, more, v := ScannedOn(text[1..], done, DigitOf(text[0]), read);
    var first := [text[0]] + digits;
    assert first[1..] == digits && text == [text[0]] + text[1..];
    groups := [first] + more;
    assert groups[1..] == more;
    if more != [] {
      var rest :| text[1..] == digits + "." + rest && Writes(rest, more, v[1..]);
      assert text == first + "." + rest;
      forall i | 0 <= i < |groups| ensures IsNumeral(groups[i]) && ValueFrom(0, groups[i]) == v[i] {
        if i > 0 { assert groups[i] == more[i - 1] && v[i] == v[1..][i - 1]; }
      }
    }
  }

  /** Whatever the text, it is read exactly when it is numerals with single dots
      between them. */
  lemma ScanIff(text: string, v: Version)
    ensures Scan(text, [], None) == Some(v) <==> IsWritten(text, v)
  {
    hide Writes;
    if Scan(text, [], None) == Some(v) {
      var groups, w := ScannedIsWritten(text, [], v);
      assert [] + w == w;
    }
    if groups :| Writes(text, groups, v) {
      WrittenIsScanned(text, groups, v, []);
      assert [] + v == v;
    }
  }

  /** The text without white space at either end. */
  ghost predicate Trims(text: string, t: string) {
    && (t != [] ==> !IsSpace(t[0]) && !IsSpace(t[|t| - 1]))
    && exists before, after :: text == before + t + after && AllSpace(before) && AllSpace(after)
  }

  predicate AllSpace(s: string) {
    forall i | 0 <= i < |s| :: IsSpace(s[i])
  }

  lemma {:induction false} TrimsLeft(s: string) returns (before: string)
    ensures s == before + TrimLeft(s) && AllSpace(before)
    ensures TrimLeft(s) != [] ==> !IsSpace(TrimLeft(s)[0])
    decreases |s|
  {
    before := "";
    if s != [] && IsSpace(s[0]) {
      var more := TrimsLeft(s[1..]);
      before := [s[0]] + more;
      assert s == [s[0]] + s[1..];
    }
  }

  lemma {:induction false} TrimsRight(s: string) returns (after: string)
    ensures s == TrimRight(s) + after && AllSpace(after)
    ensures TrimRight(s) != [] ==> TrimRight(s)[0] == s[0] && !IsSpace(TrimRight(s)[|TrimRight(s)| - 1])
    decreases |s|
  {
    after := "";
    if s != [] && IsSpace(s[|s| - 1]) {
      var (init, last) := (s[..|s| - 1], s[|s| - 1]);
      var more := TrimsRight(init);
      after := more + [last];
      calc {
        s;
        init + [last];
        TrimRight(init) + more + [last];
        TrimRight(init) + after;
      }
      hide TrimRight;
      SpaceMore(more, last);
    }
  }

  lemma SpaceMore(s: string, c: char)
    requires AllSpace(s) && IsSpace(c)
    ensures AllSpace(s + [c])
  {
  }

  lemma TrimIs(text: string)
    ensures Trims(text, Trim(text))
  {
    var before := TrimsLeft(text);
    var after := TrimsRight(TrimLeft(text));
    assert text == before + Trim(text) + after;
  }

  /** A text is read exactly when, trimmed, it is numerals with single dots
      between them, or where letters count these and one letter after them. */
  lemma VersionOfIff(text: string, letters: bool, v: Version)
    ensures Trims(text, Trim(text))
    ensures var t := Trim(text);
      VersionOf(text, letters) == Some(v) <==>
      || IsWritten(t, v)
      || (letters && t != [] && IsLetter(t[|t| - 1]) && v != [] && v[|v| - 1] == LetterNumber(t[|t| - 1])
          && IsWritten(t[..|t| - 1], v[..|v| - 1]))
  {
    TrimIs(text);
    var t := Trim(text);
    ScanIff(t, v);
    match Scan(t, [], None)
    case Some(w) => NoLetterInside(t, w);
    case None =>
      if t != [] && IsLetter(t[|t| - 1]) {
        hide IsWritten;
        if v != [] {
          ScanIff(t[..|t| - 1], v[..|v| - 1]);
          assert v == v[..|v| - 1] + [v[|v| - 1]];
        }
        match Scan(t[..|t| - 1], [], None)
        case Some(w) => assert (w + [LetterNumber(t[|t| - 1])])[..|w|] == w;
        case None =>
      }
  }

  /** What is read as it is does not end in a letter. */
  lemma {:induction false} EndsInDigit(text: string, done: Version, current: Option<nat>)
    requires text != [] && Scan(text, done, current).Some?
    ensures IsDigit(text[|text| - 1])
    decreases |text|
  {
    if |text| > 1 {
      assert text[1..][|text[1..]| - 1] == text[|text| - 1];
      EndsInDigit(text[1..], if IsDigit(text[0]) then done else done + [current.value],
                  if IsDigit(text[0]) then Some(current.GetOr(0) * 10 + DigitOf(text[0])) else None);
    }
  }

  lemma NoLetterInside(t: string, w: Version)
    requires Scan(t, [], None) == Some(w)
    ensures t != [] && !IsLetter(t[|t| - 1])
  {
    EndsInDigit(t, [], None);
  }

  // -------------------------------------------------------------- round trip

  lemma {:induction false} ScanDigits(n: nat, rest: string, done: Version)
    ensures Scan(Digits(n) + rest, done, None) == Scan(rest, done, Some(n))
    decreases n
  {
    if n < 10 {
      assert (Digits(n) + rest)[1..] == rest;
    } else {
      var last := [Digit(n % 10)];
      assert Digits(n) + rest == Digits(n / 10) + (last + rest);
      ScanDigits(n / 10, last + rest, done);
      assert (last + rest)[1..] == rest;
    }
  }

  lemma {:induction false} ScanDotted(v: Version, rest: string, done: Version)
    requires v != []
    ensures Scan(Dotted(v) + rest, done, None) == Scan(rest, done + v[..|v| - 1], Some(v[|v| - 1]))
    decreases |v|
  {
    if |v| == 1 {
      ScanDigits(v[0], rest, done);
      assert done + v[..0] == done;
    } else {
      var tail := "." + (Dotted(v[1..]) + rest);
      assert Dotted(v) + rest == Digits(v[0]) + tail;
      ScanDigits(v[0], tail, done);
      assert tail[1..] == Dotted(v[1..]) + rest;
      ScanDotted(v[1..], rest, done + [v[0]]);
      assert done + [v[0]] + v[1..][..|v| - 2] == done + v[..|v| - 1];
    }
  }

  lemma NothingToTrim(s: string)
    requires s != [] && !IsSpace(s[0]) && !IsSpace(s[|s| - 1])
    ensures Trim(s) == s
  {
  }

  /** Reading back what was written gives the same version, whichever way it
      was written. */
  lemma ReadWritten(v: Version, letters: bool)
    requires v != []
    ensures VersionOf(Format(v, letters), letters) == Some(v)
  {
    var text := Format(v, letters);
    NothingToTrim(text);
    if letters && |v| == 4 && 1 <= v[3] <= 26 {
      var w := v[..3];
      ScanDotted(w, [Letter(v[3])], []);
      ScanDotted(w, [], []);
      assert Dotted(w) + [] == Dotted(w) == text[..|text| - 1];
      assert [] + w[..2] + [w[2]] == w && w + [v[3]] == v;
    } else {
      ScanDotted(v, [], []);
      assert Dotted(v) + [] == Dotted(v);
      assert [] + v[..|v| - 1] + [v[|v| - 1]] == v;
    }
  }

  /** No two versions are written alike. */
  lemma WrittenApart(v: Version, w: Version, letters: bool)
    requires v != [] && w != [] && Format(v, letters) == Format(w, letters)
    ensures v == w
  {
    ReadWritten(v, letters);
    ReadWritten(w, letters);
  }

  /** A release with a patch letter, in either case, reads as the release with
      the letter's number added. */
  lemma LetterRead(a: nat, b: nat, c: nat, letter: char)
    requires IsLetter(letter)
    ensures VersionOf(Dotted([a, b, c]) + [letter], true) == Some([a, b, c, LetterNumber(letter)])
  {
    var w: Version := [a, b, c];
    var text := Dotted(w) + [letter];
    NothingToTrim(text);
    ScanDotted(w, [letter], []);
    ScanDotted(w, [], []);
    assert Dotted(w) + [] == Dotted(w) == text[..|text| - 1];
    assert [] + w[..2] + [w[2]] == w;
    assert w + [LetterNumber(letter)] == [a, b, c, LetterNumber(letter)];
  }

  /** Both texts stand for versions, the first for an earlier one. */
  ghost predicate ReadsBefore(text: string, other: string) {
    var (v, w) := (VersionOf(text, true), VersionOf(other, true));
    v.Some? && w.Some? && Cmp(v.value, w.value) < 0
  }

  /** Patch letters come after the release without one, in the order of the
      alphabet, and before the next release: 1.1.1, 1.1.1a, 1.1.1b, 1.1.2. */
  lemma LettersInOrder(a: nat, b: nat, c: nat, first: char, second: char)
    requires IsLetter(first) && IsLetter(second) && LetterNumber(first) < LetterNumber(second)
    ensures ReadsBefore(Dotted([a, b, c]), Dotted([a, b, c]) + [first])
    ensures ReadsBefore(Dotted([a, b, c]) + [first], Dotted([a, b, c]) + [second])
    ensures ReadsBefore(Dotted([a, b, c]) + [second], Dotted([a, b, c + 1]))
  {
    hide VersionOf;
    LetterRead(a, b, c, first);
    LetterRead(a, b, c, second);
    ReadWritten([a, b, c], true);
    ReadWritten([a, b, c + 1], true);
    var (x, y) := (LetterNumber(first), LetterNumber(second));
    CmpDecidedAt([a, b, c], [a, b, c, x], 0, 3, 4);
    CmpDecidedAt([a, b, c, x], [a, b, c, y], 0, 3, 4);
    CmpDecidedAt([a, b, c, y], [a, b, c + 1], 0, 2, 4);
  }
}
