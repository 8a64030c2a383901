/** The edit distance between two labels and the similarity reported from it
    (evidence.py).

    The rolling-row loop is proved against a recursive definition, and that
    definition against an independent one: the length of the shortest script
    of single-character edits that turns one string into the other. */
module Evidence {
  import opened Common

  // ------------------------------------------------------------ definitions

  function Init(s: string): string
    requires s != []
  {
    s[..|s| - 1]
  }

  function Last(s: string): char
    requires s != []
  {
    s[|s| - 1]
  }

  function Min(x: nat, y: nat): nat {
    if x <= y then x else y
  }

  function Max(x: nat, y: nat): nat {
    if x <= y then y else x
  }

  function Differ(x: char, y: char): nat {
    if x == y then 0 else 1
  }

  /** The textbook recursion on the last characters. */
  function Lev(a: string, b: string): nat
    decreases |a| + |b|
  {
    if a == [] then |b|
    else if b == [] then |a|
    else
      Min(Min(Lev(Init(a), b) + 1, Lev(a, Init(b)) + 1),
          Lev(Init(a), Init(b)) + Differ(Last(a), Last(b)))
  }

  /** One edit of one character at one position. */
  datatype Edit =
    | Insert(at: nat, c: char)
    | Delete(at: nat)
    | Substitute(at: nat, c: char)

  predicate Fits(e: Edit, s: string) {
    match e
    case Insert(at, _) => at <= |s|
    case Delete(at) => at < |s|
    case Substitute(at, _) => at < |s|
  }

  function Apply(e: Edit, s: string): string
    requires Fits(e, s)
  {
    match e
    case Insert(at, c) => s[..at] + [c] + s[at..]
    case Delete(at) => s[..at] + s[at + 1..]
    case Substitute(at, c) => s[..at] + [c] + s[at + 1..]
  }

  /** The script, edit after edit, turns a into b. */
  predicate Turns(script: seq<Edit>, a: string, b: string) {
    if script == [] then a == b
    else Fits(script[0], a) && Turns(script[1..], Apply(script[0], a), b)
  }

  // ------------------------------------------------------- metric properties

  lemma {:induction false} LevSymmetric(a: string, b: string)
    ensures Lev(a, b) == Lev(b, a)
    decreases |a| + |b|
  {
    if a == [] || b == [] {
    } else {
      LevSymmetric(Init(a), b);
      LevSymmetric(a, Init(b));
      LevSymmetric(Init(a), Init(b));
    }
  }

  /** The distance lies between the difference in length and the longer length. */
  lemma {:induction false} LevBounds(a: string, b: string)
    ensures |a| <= |b| + Lev(a, b)
    ensures |b| <= |a| + Lev(a, b)
    ensures Lev(a, b) <= Max(|a|, |b|)
    decreases |a| + |b|
  {
    if a == [] || b == [] {
    } else {
      LevBounds(Init(a), b);
      LevBounds(a, Init(b));
      LevBounds(Init(a), Init(b));
    }
  }

  lemma {:induction false} LevZero(a: string, b: string)
    ensures Lev(a, b) == 0 <==> a == b
    decreases |a| + |b|
  {
    if a == [] || b == [] {
    } else {
      LevZero(Init(a), Init(b));
      assert a == Init(a) + [Last(a)] && b == Init(b) + [Last(b)];
    }
  }

  lemma {:induction false} LevTriangle(a: string, b: string, c: string)
    ensures Lev(a, c) <= Lev(a, b) + Lev(b, c)
    decreases |a| + |b| + |c|
  {
    if a == [] || b == [] || c == [] {
      LevBounds(a, b);
      LevBounds(b, c);
      LevBounds(a, c);
    } else {
      LevTriangle(Init(a), b, c);
      LevTriangle(a, b, Init(c));
      LevTriangle(a, Init(b), c);
      LevTriangle(a, Init(b), Init(c));
      LevTriangle(Init(a), Init(b), c);
      LevTriangle(Init(a), Init(b), Init(c));
    }
  }

  /** A common ending never adds to the distance. */
  lemma {:induction false} LevCommonEnding(a: string, b: string, z: string)
    ensures Lev(a + z, b + z) <= Lev(a, b)
    decreases |z|
  {
    if z == [] {
      assert a + z == a && b + z == b;
    } else {
      assert Init(a + z) == a + Init(z) && Init(b + z) == b + Init(z);
      LevCommonEnding(a, b, Init(z));
    }
  }

  // ---------------------------------------------- the least number of edits

  /** Strings that differ in nothing but one character at the end. */
  lemma LevOneLast(p: string, x: char, y: char)
    ensures Lev(p, p + [x]) <= 1 && Lev(p + [x], p) <= 1 && Lev(p + [x], p + [y]) <= 1
  {
    LevZero(p, p);
    assert Init(p + [x]) == p && Init(p + [y]) == p;
  }

  lemma LevOneEdit(e: Edit, s: string)
    requires Fits(e, s)
    ensures Lev(s, Apply(e, s)) <= 1
  {
    hide Lev;
    var p := s[..e.at];
    if e.Insert? {
      LevOneLast(p, e.c, e.c);
      LevCommonEnding(p, p + [e.c], s[e.at..]);
      assert s == p + s[e.at..];
    } else {
      var q := s[e.at + 1..];
      var gone := [s[e.at]];
      assert s == (p + gone) + q;
      if e.Delete? {
        LevOneLast(p, s[e.at], s[e.at]);
        LevCommonEnding(p + gone, p, q);
      } else {
        LevOneLast(p, s[e.at], e.c);
        LevCommonEnding(p + gone, p + [e.c], q);
      }
    }
  }

  /** No script is shorter than the distance. */
  lemma {:induction false} LevAtMostScript(script: seq<Edit>, a: string, b: string)
    requires Turns(script, a, b)
    ensures Lev(a, b) <= |script|
    decreases |script|
  {
    if script == [] {
      LevZero(a, b);
    } else {
      var next := Apply(script[0], a);
      LevAtMostScript(script[1..], next, b);
      LevOneEdit(script[0], a);
      LevTriangle(a, next, b);
    }
  }

  lemma {:induction false} TurnsThen(s1: seq<Edit>, s2: seq<Edit>, a: string, b: string, c: string)
    requires Turns(s1, a, b) && Turns(s2, b, c)
    ensures Turns(s1 + s2, a, c)
    decreases |s1|
  {
    if s1 == [] {
      assert s1 + s2 == s2;
    } else {
      assert (s1 + s2)[1..] == s1[1..] + s2;
      TurnsThen(s1[1..], s2, Apply(s1[0], a), b, c);
    }
  }

  /** A script that turns a into b turns a + z into b + z. */
  lemma {:induction false} TurnsPrefix(script: seq<Edit>, a: string, b: string, z: string)
    requires Turns(script, a, b)
    ensures Turns(script, a + z, b + z)
    decreases |script|
  {
    if script != [] {
      var e := script[0];
      TurnsPrefix(script[1..], Apply(e, a), b, z);
      ApplyPrefix(e, a, z);
    }
  }

  lemma ApplyPrefix(e: Edit, a: string, z: string)
    requires Fits(e, a)
    ensures Fits(e, a + z) && Apply(e, a + z) == Apply(e, a) + z
  {
    match e
    case Insert(at, c) => assert (a + z)[..at] == a[..at] && (a + z)[at..] == a[at..] + z;
    case Delete(at) => assert (a + z)[..at] == a[..at] && (a + z)[at + 1..] == a[at + 1..] + z;
    case Substitute(at, c) => assert (a + z)[..at] == a[..at] && (a + z)[at + 1..] == a[at + 1..] + z;
  }

  lemma TurnsFirst(e: Edit, rest: seq<Edit>, a: string, b: string)
    requires Fits(e, a) && Turns(rest, Apply(e, a), b)
    ensures Turns([e] + rest, a, b)
  {
    hide Fits, Apply;
    assert ([e] + rest)[1..] == rest;
  }

  lemma DropLast(a: string, b: string, rest: seq<Edit>)
    requires a != [] && Turns(rest, Init(a), b)
    ensures Turns([Delete(|a| - 1)] + rest, a, b)
  {
    hide Turns;
    assert Apply(Delete(|a| - 1), a) == Init(a);
    TurnsFirst(Delete(|a| - 1), rest, a, b);
  }

  lemma AddLast(a: string, b: string, rest: seq<Edit>)
    requires b != [] && Turns(rest, a, Init(b))
    ensures Turns(rest + [Insert(|b| - 1, Last(b))], a, b)
  {
    hide Turns;
    var e := Insert(|b| - 1, Last(b));
    assert Apply(e, Init(b)) == b;
    TurnsNothing(b);
    TurnsFirst(e, [], Init(b), b);
    assert [e] + [] == [e];
    TurnsThen(rest, [e], a, Init(b), b);
  }

  lemma TurnsNothing(b: string)
    ensures Turns([], b, b)
  {
  }

  lemma SwapLast(a: string, b: string, rest: seq<Edit>)
    requires a != [] && b != [] && Turns(rest, Init(a), Init(b))
    ensures if Last(a) == Last(b) then Turns(rest, a, b) else Turns([Substitute(|a| - 1, Last(b))] + rest, a, b)
  {
    hide Turns;
    TurnsPrefix(rest, Init(a), Init(b), [Last(b)]);
    assert b == Init(b) + [Last(b)] && a == Init(a) + [Last(a)];
    if Last(a) != Last(b) {
      assert Apply(Substitute(|a| - 1, Last(b)), a) == Init(a) + [Last(b)];
      TurnsFirst(Substitute(|a| - 1, Last(b)), rest, a, b);
    }
  }

  /** A shortest script, read off the recursion. */
  ghost function BestScript(a: string, b: string): (script: seq<Edit>)
    ensures Turns(script, a, b) && |script| == Lev(a, b)
    decreases |a| + |b|
  {
    if a == [] && b == [] then []
    else if b == [] || (a != [] && Lev(a, b) == Lev(Init(a), b) + 1) then
      var rest := BestScript(Init(a), b);
      DropLast(a, b, rest);
      [Delete(|a| - 1)] + rest
    else if a == [] || Lev(a, b) == Lev(a, Init(b)) + 1 then
      var rest := BestScript(a, Init(b));
      AddLast(a, b, rest);
      rest + [Insert(|b| - 1, Last(b))]
    else
      var rest := BestScript(Init(a), Init(b));
      SwapLast(a, b, rest);
      if Last(a) == Last(b) then rest
      else [Substitute(|a| - 1, Last(b))] + rest
  }

  /** The distance is the length of a shortest script: one of that length
      exists, and every script is at least that long. */
  lemma LevIsLeastScript(a: string, b: string)
    ensures exists script :: Turns(script, a, b) && |script| == Lev(a, b)
    ensures forall script :: Turns(script, a, b) ==> Lev(a, b) <= |script|
  {
    assert Turns(BestScript(a, b), a, b);
    forall script | Turns(script, a, b) ensures Lev(a, b) <= |script| {
      LevAtMostScript(script, a, b);
    }
  }

  /** A label that holds the protected one differs from it by exactly what
      was put around it. */
  lemma LevOfSurrounded(x: string, p: string, y: string)
    ensures Lev(x + p + y, p) == |x| + |y|
  {
    LevBounds(x + p + y, p);
    LevCommonEnding(x, [], p);
    assert [] + p == p;
    var xp := x + p;
    LevCommonEnding(y, [], []);
    LevAppend(xp, y);
    LevTriangle(xp + y, xp, p);
  }

  lemma {:induction false} LevAppend(s: string, y: string)
    ensures Lev(s + y, s) <= |y|
    decreases |y|
  {
    if y == [] {
      assert s + y == s;
      LevZero(s, s);
    } else {
      assert Init(s + y) == s + Init(y);
      LevAppend(s, Init(y));
      LevBounds(s + y, s);
    }
  }

  // ------------------------------------------------------------ the program

  /** The same recursion over lengths of prefixes, the way the table is filled. */
  ghost function Cell(a: string, b: string, i: nat, j: nat): nat
    requires i <= |a| && j <= |b|
  {
    if i == 0 then j
    else if j == 0 then i
    else
      Min(Min(Cell(a, b, i - 1, j) + 1, Cell(a, b, i, j - 1) + 1),
          Cell(a, b, i - 1, j - 1) + Differ(a[i - 1], b[j - 1]))
  }

  lemma LevStep(x: string, y: string)
    requires x != [] && y != []
    ensures Lev(x, y)
         == Min(Min(Lev(Init(x), y) + 1, Lev(x, Init(y)) + 1), Lev(Init(x), Init(y)) + Differ(Last(x), Last(y)))
  {
    hide Min, Differ, Init, Last;
  }

  lemma LevEmpty(x: string, y: string)
    requires x == [] || y == []
    ensures Lev(x, y) == Max(|x|, |y|)
  {
  }

  lemma {:induction false} CellIsLev(a: string, b: string, i: nat, j: nat)
    requires i <= |a| && j <= |b|
    ensures Cell(a, b, i, j) == Lev(a[..i], b[..j])
  {
    hide Lev, Min, Differ;
    if i > 0 && j > 0 {
      CellIsLev(a, b, i - 1, j);
      CellIsLev(a, b, i, j - 1);
      CellIsLev(a, b, i - 1, j - 1);
      LevStep(a[..i], b[..j]);
      assert Init(a[..i]) == a[..i - 1] && Init(b[..j]) == b[..j - 1];
    } else {
      LevEmpty(a[..i], b[..j]);
    }
  }

  /** The first `upto` cells of row i. */
  ghost predicate IsRow(row: seq<nat>, a: string, i: nat, b: string, upto: nat)
    requires i <= |a| && upto <= |b| + 1
  {
    |row| == upto && forall j | 0 <= j < upto :: row[j] == Cell(a, b, i, j)
  }

  /** The distance the way it is computed: one row at a time, only the
      previous row kept. */
  method Levenshtein(a: string, b: string) returns (distance: nat)
    ensures distance == Lev(a, b)
  {
    if a == b {
      LevZero(a, b);
      return 0;
    }
    if a == [] { return |b|; }
    if b == [] { return |a|; }
    var previous: seq<nat> := seq(|b| + 1, j requires 0 <= j => j);
    var i := 1;
    while i <= |a|
      invariant 1 <= i <= |a| + 1 && IsRow(previous, a, i - 1, b, |b| + 1)
    {
      var current: seq<nat> := [i];
      var j := 1;
      while j <= |b|
        invariant 1 <= j <= |b| + 1 && IsRow(current, a, i, b, j)
      {
        current := current + [Min(Min(previous[j] + 1, current[j - 1] + 1),
                                  previous[j - 1] + (if a[i - 1] != b[j - 1] then 1 else 0))];
        j := j + 1;
      }
      previous := current;
      i := i + 1;
    }
    CellIsLev(a, b, |a|, |b|);
    assert a[..|a|] == a && b[..|b|] == b;
    distance := previous[|b|];
  }

  // -------------------------------------------------------------- the score

  datatype Score = Score(sameLabel: bool, sameTld: bool, editDistance: nat, similarity: real,
                         containsProtected: bool, tldSwapOnly: bool)

  function FirstDot(name: string): (i: nat)
    ensures i <= |name| && (i < |name| ==> name[i] == '.') && '.' !in name[..i]
  {
    if name == [] || name[0] == '.' then 0
    else
      var i := 1 + FirstDot(name[1..]);
      assert name[..i] == [name[0]] + name[1..][..i - 1];
      i
  }

  function Label(name: string): string {
    name[..FirstDot(name)]
  }

  function Tld(name: string): string {
    if FirstDot(name) < |name| then name[FirstDot(name) + 1..] else ""
  }

  predicate OccursAt(p: string, s: string, i: nat) {
    i + |p| <= |s| && s[i..i + |p|] == p
  }

  predicate Within(p: string, s: string) {
    exists i | 0 <= i <= |s| :: OccursAt(p, s, i)
  }

  /** 1 - d / n in thousandths, rounded; halfway, to the even one. */
  function Thousandths(d: nat, n: nat): nat
    requires d <= n && n > 0
  {
    var (whole, rest) := (1000 * (n - d) / n, 1000 * (n - d) % n);
    if 2 * rest < n || (2 * rest == n && whole % 2 == 0) then whole else whole + 1
  }

  function Longest(a: string, b: string): (n: nat)
    ensures n > 0 && |a| <= n && |b| <= n
  {
    if Max(|a|, |b|) == 0 then 1 else Max(|a|, |b|)
  }

  /** The score of two names that were trimmed and lower-cased. */
  ghost function ScoreOf(candidate: string, protected: string): Option<Score> {
    if candidate == [] || protected == [] then None
    else
      var (cand, prot) := (Label(candidate), Label(protected));
      var (candTld, protTld) := (Tld(candidate), Tld(protected));
      LevBounds(cand, prot);
      Some(Score(cand == prot, candTld == protTld, Lev(cand, prot),
                 Thousandths(Lev(cand, prot), Longest(cand, prot)) as real / 1000.0,
                 Within(prot, cand) && cand != prot,
                 cand == prot && candTld != protTld))
  }

  method ConfusableScore(candidate: string, protected: string) returns (score: Option<Score>)
    ensures score == ScoreOf(candidate, protected)
    ensures score.None? <==> candidate == [] || protected == []
  {
    if candidate == [] || protected == [] { return None; }
    var cand, candTld := Label(candidate), Tld(candidate);
    var prot, protTld := Label(protected), Tld(protected);
    var distance := Levenshtein(cand, prot);
    var longest := Max(|cand|, |prot|);
    if longest == 0 { longest := 1; }
    LevBounds(cand, prot);
    return Some(Score(cand == prot, candTld == protTld, distance,
                      Thousandths(distance, longest) as real / 1000.0,
                      Within(prot, cand) && cand != prot,
                      cand == prot && candTld != protTld));
  }

  lemma WholeAndRest(x: nat, n: nat)
    requires n > 0
    ensures x == (x / n) * n + x % n && x % n < n
  {
  }

  lemma Multiples(whole: nat, n: nat)
    ensures whole <= 998 ==> whole * n <= 998 * n
    ensures whole >= 1001 ==> whole * n >= 1001 * n
    ensures (whole + 1) * n == whole * n + n
  {
  }

  /** The rounded value is within half a thousandth of the fraction, even where
      it is just that far, and is 1 only when the distance is at most one in two
      thousand. */
  lemma RoundedMeaning(d: nat, n: nat)
    requires d <= n && n > 0
    ensures Thousandths(d, n) <= 1000
    ensures Thousandths(d, n) == 1000 <==> 2000 * d <= n
    ensures 2 * (1000 * (n - d) - Thousandths(d, n) * n) <= n && 2 * (Thousandths(d, n) * n - 1000 * (n - d)) <= n
    ensures 2 * (1000 * (n - d) - Thousandths(d, n) * n) == n || 2 * (Thousandths(d, n) * n - 1000 * (n - d)) == n ==>
      Thousandths(d, n) % 2 == 0
  {
    var x := 1000 * (n - d);
    WholeAndRest(x, n);
    Multiples(x / n, n);
    RoundedParts(d, n, x / n, x % n, (x / n) * n);
  }

  lemma RoundedParts(d: nat, n: nat, whole: nat, rest: nat, part: nat)
    requires d <= n && n > 0 && 1000 * (n - d) == part + rest && rest < n
    requires (whole <= 998 ==> part <= 998 * n) && (whole == 999 ==> part == 999 * n)
    requires (whole == 1000 ==> part == 1000 * n) && (whole >= 1001 ==> part >= 1001 * n)
    ensures var down := 2 * rest < n || (2 * rest == n && whole % 2 == 0);
      var rounded := if down then whole else whole + 1;
      && rounded <= 1000 && (rounded == 1000 <==> 2000 * d <= n)
      && 2 * (if down then rest else n - rest) <= n
      && (2 * (if down then rest else n - rest) == n ==> rounded % 2 == 0)
  {
  }

  /** The similarity stays in [0, 1]. It is 1 for equal labels, and otherwise
      only where a single edit is lost in the rounding: never for labels of
      fewer than 2000 characters. A label that contains the protected one is as
      far from it as it is longer. */
  lemma ScoreMeaning(candidate: string, protected: string)
    requires candidate != [] && protected != []
    ensures var s := ScoreOf(candidate, protected).value;
      var longest := Longest(Label(candidate), Label(protected));
      && 0.0 <= s.similarity <= 1.0
      && (s.similarity == 1.0 <==> 2000 * s.editDistance <= longest)
      && (s.editDistance == 0 <==> s.sameLabel)
      && (longest < 2000 ==> (s.similarity == 1.0 <==> s.sameLabel))
      && (longest < 2000 ==> (s.tldSwapOnly <==> s.similarity == 1.0 && !s.sameTld))
      && (s.containsProtected ==> s.editDistance == |Label(candidate)| - |Label(protected)| > 0)
  {
    var cand, prot := Label(candidate), Label(protected);
    hide Thousandths, Label, Tld, Lev;
    LevBounds(cand, prot);
    LevZero(cand, prot);
    RoundedMeaning(Lev(cand, prot), Longest(cand, prot));
    if Within(prot, cand) && cand != prot {
      SurroundedLabel(cand, prot);
    }
  }

  /** A name is its label, and after the first dot its TLD: one way only. */
  lemma NameParts(name: string, first: string, rest: string)
    ensures '.' !in first && name == first + "." + rest ==> first == Label(name) && rest == Tld(name)
    ensures '.' !in name ==> Label(name) == name && Tld(name) == ""
    ensures '.' in name ==> '.' !in Label(name) && name == Label(name) + "." + Tld(name)
  {
    if '.' !in first { DotAfter(first, rest); }
  }

  lemma {:induction false} DotAfter(first: string, rest: string)
    requires '.' !in first
    ensures FirstDot(first + "." + rest) == |first|
    decreases |first|
  {
    var name := first + "." + rest;
    if first != [] {
      assert name[0] == first[0] && first[0] in first;
      assert name[1..] == first[1..] + "." + rest;
      DotAfter(first[1..], rest);
    }
  }

  /** What the flags say, by the parts of the two names. */
  lemma ScoreFlags(candidate: string, protected: string)
    requires candidate != [] && protected != []
    ensures var s := ScoreOf(candidate, protected).value;
      && (s.sameLabel <==> Label(candidate) == Label(protected))
      && (s.sameTld <==> Tld(candidate) == Tld(protected))
      && (s.tldSwapOnly <==> s.sameLabel && !s.sameTld)
      && (s.containsProtected <==>
            !s.sameLabel && exists before, after :: Label(candidate) == before + Label(protected) + after)
  {
    var (cand, prot) := (Label(candidate), Label(protected));
    if i: nat :| 0 <= i <= |cand| && OccursAt(prot, cand, i) {
      assert cand == cand[..i] + prot + cand[i + |prot|..];
    }
    if before, after :| cand == before + prot + after { assert OccursAt(prot, cand, |before|); }
  }

  lemma SurroundedLabel(cand: string, prot: string)
    requires Within(prot, cand) && cand != prot
    ensures Lev(cand, prot) == |cand| - |prot| > 0
  {
    var i :| 0 <= i <= |cand| && OccursAt(prot, cand, i);
    assert cand == cand[..i] + prot + cand[i + |prot|..];
    LevOfSurrounded(cand[..i], prot, cand[i + |prot|..]);
    LevZero(cand, prot);
  }

  /** Which of the two names is the protected one changes neither the
      distance nor the similarity. */
  lemma ScoreSymmetric(candidate: string, protected: string)
    requires candidate != [] && protected != []
    ensures var (s, t) := (ScoreOf(candidate, protected).value, ScoreOf(protected, candidate).value);
      s.similarity == t.similarity && s.editDistance == t.editDistance
  {
    LevSymmetric(Label(candidate), Label(protected));
  }
}
