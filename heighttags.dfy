/**
 * Building heights from OSM tags (`ObjHandler::getBuildingHeight`,
 * osmwave.cxx:109-138): the regular expression
 * `^\s*([0-9.]+)\s*(\S*)\s*$` on the height tag, `std::stod` on its first
 * group or on the levels tag, and the precedence between the height tag,
 * the levels tag and the default.
 */
module HeightTags {
  import opened Wrappers
  import opened Digits

  /** osmwave.cxx:31. */
  const MetersPerLevel: real := 3.0

  /** `\s` and `isspace` in the C locale. */
  predicate IsSpace(c: char)
  {
    c == ' ' || c == '\t' || c == '\n' || c == '\U{0B}' || c == '\U{0C}' || c == '\r'
  }

  /** The character classes the pattern and the number parser scan over. */
  datatype CharClass = Space | NonSpace | NumberChar | Digit

  predicate InClass(c: char, cl: CharClass)
  {
    match cl
    case Space => IsSpace(c)
    case NonSpace => !IsSpace(c)
    case NumberChar => IsDigit(c) || c == '.'
    case Digit => IsDigit(c)
  }

  predicate AllIn(s: string, cl: CharClass)
  {
    forall i :: 0 <= i < |s| ==> InClass(s[i], cl)
  }

  /** The end of the longest run of class cl starting at p: what a greedy
      `cl*` consumes. */
  function Run(s: string, p: nat, cl: CharClass): (r: nat)
    requires p <= |s|
    ensures p <= r <= |s|
    decreases |s| - p
  {
    if p < |s| && InClass(s[p], cl) then Run(s, p + 1, cl) else p
  }

  /** Every character of the run is in its class, and the one that ends
      it is not. */
  lemma {:induction false} RunFacts(s: string, p: nat, cl: CharClass)
    requires p <= |s|
    ensures forall i :: p <= i < Run(s, p, cl) ==> InClass(s[i], cl)
    ensures Run(s, p, cl) < |s| ==> !InClass(s[Run(s, p, cl)], cl)
    decreases |s| - p
  {
    if p < |s| && InClass(s[p], cl) {
      RunFacts(s, p + 1, cl);
    }
  }

  /** A run is never shorter than a stretch of the class it starts. */
  lemma {:induction false} RunCovers(s: string, p: nat, q: nat, cl: CharClass)
    requires p <= q <= |s|
    requires forall i :: p <= i < q ==> InClass(s[i], cl)
    ensures q <= Run(s, p, cl)
    decreases q - p
  {
    if p < q {
      RunCovers(s, p + 1, q, cl);
    }
  }

  /** A run ends no later than the first character outside its class. */
  lemma {:induction false} RunStopsAt(s: string, p: nat, q: nat, cl: CharClass)
    requires p <= q <= |s|
    requires q < |s| ==> !InClass(s[q], cl)
    ensures Run(s, p, cl) <= q
  {
    RunFacts(s, p, cl);
  }

  // ---------------------------------------------------------------------
  // The pattern ^\s*([0-9.]+)\s*(\S*)\s*$ (osmwave.cxx:110,116-122)
  // ---------------------------------------------------------------------

  /** Where `\s*(\S*)\s*` run greedily from p ends. */
  function TailEnd(s: string, p: nat): nat
    requires p <= |s|
  {
    var c := Run(s, p, Space);
    var d := Run(s, c, NonSpace);
    Run(s, d, Space)
  }

  /** The first group of the pattern when the whole string matches it. The
      group is greedy; backtracking into it never helps, because whatever it
      gives back must then be matched by `\S*`. */
  function HeightPattern(s: string): (r: Option<string>)
    ensures r.Some? ==> |r.value| > 0 && forall i :: 0 <= i < |r.value| ==> InClass(r.value[i], NumberChar)
  {
    var a := Run(s, 0, Space);
    var b := Run(s, a, NumberChar);
    RunFacts(s, a, NumberChar);
    if a < b && TailEnd(s, b) == |s| then Some(s[a..b]) else None
  }

  /** A way the pattern can match s: leading spaces s[..i], the group
      s[i..j], spaces s[j..k], non-spaces s[k..l], trailing spaces s[l..]. */
  predicate Decomposition(s: string, i: nat, j: nat, k: nat, l: nat)
  {
    && i < j <= k <= l <= |s|
    && AllIn(s[..i], Space)
    && AllIn(s[i..j], NumberChar)
    && AllIn(s[j..k], Space)
    && AllIn(s[k..l], NonSpace)
    && AllIn(s[l..], Space)
  }

  /** The greedy tail succeeds on any string of the form spaces, non-spaces,
      spaces. */
  lemma {:induction false} TailGreedy(s: string, p: nat, k: nat, l: nat)
    requires p <= k <= l <= |s|
    requires forall i :: p <= i < k ==> IsSpace(s[i])
    requires forall i :: k <= i < l ==> !IsSpace(s[i])
    requires forall i :: l <= i < |s| ==> IsSpace(s[i])
    ensures TailEnd(s, p) == |s|
  {
    RunCovers(s, p, k, Space);
    var c := Run(s, p, Space);
    if k < l {
      assert !IsSpace(s[k]);
      RunStopsAt(s, p, k, Space);
      RunCovers(s, k, l, NonSpace);
      var d := Run(s, c, NonSpace);
      if l < |s| {
        assert IsSpace(s[l]);
        RunStopsAt(s, c, l, NonSpace);
      }
      RunCovers(s, d, |s|, Space);
    } else {
      RunCovers(s, p, |s|, Space);
    }
  }

  /** Soundness: what HeightPattern returns is the group of a match. */
  lemma {:induction false} HeightPatternSound(s: string)
    requires HeightPattern(s).Some?
    ensures exists i: nat, j: nat, k: nat, l: nat :: Decomposition(s, i, j, k, l) && s[i..j] == HeightPattern(s).value
  {
    var a := Run(s, 0, Space);
    var b := Run(s, a, NumberChar);
    var c := Run(s, b, Space);
    var d := Run(s, c, NonSpace);
    RunFacts(s, 0, Space);
    RunFacts(s, a, NumberChar);
    RunFacts(s, b, Space);
    RunFacts(s, c, NonSpace);
    RunFacts(s, d, Space);
    PointwiseDecomposition(s, a, b, c, d);
  }

  /** The five parts of a match, stated character by character. */
  lemma {:induction false} PointwiseDecomposition(s: string, i: nat, j: nat, k: nat, l: nat)
    requires i < j <= k <= l <= |s|
    requires forall x :: 0 <= x < i ==> InClass(s[x], Space)
    requires forall x :: i <= x < j ==> InClass(s[x], NumberChar)
    requires forall x :: j <= x < k ==> InClass(s[x], Space)
    requires forall x :: k <= x < l ==> InClass(s[x], NonSpace)
    requires forall x :: l <= x < |s| ==> InClass(s[x], Space)
    ensures Decomposition(s, i, j, k, l)
  {
    assert AllIn(s[..i], Space) by { assert forall x :: 0 <= x < i ==> s[..i][x] == s[x]; }
    assert AllIn(s[i..j], NumberChar) by { assert forall x :: 0 <= x < j - i ==> s[i..j][x] == s[i + x]; }
    assert AllIn(s[j..k], Space) by { assert forall x :: 0 <= x < k - j ==> s[j..k][x] == s[j + x]; }
    assert AllIn(s[k..l], NonSpace) by { assert forall x :: 0 <= x < l - k ==> s[k..l][x] == s[k + x]; }
    assert AllIn(s[l..], Space) by { assert forall x :: 0 <= x < |s| - l ==> s[l..][x] == s[l + x]; }
  }

  /** Completeness and greed: whenever the pattern can match, HeightPattern
      finds a group, which starts where any match's group starts and is at
      least as long. */
  lemma {:induction false} HeightPatternComplete(s: string, i: nat, j: nat, k: nat, l: nat)
    requires Decomposition(s, i, j, k, l)
    ensures HeightPattern(s).Some?
    ensures var g := HeightPattern(s).value;
            j - i <= |g| && g[..j - i] == s[i..j]
  {
    DecompositionPointwise(s, i, j, k, l);
    var a := Run(s, 0, Space);
    assert a == i by {
      RunCovers(s, 0, i, Space);
      assert InClass(s[i], NumberChar);
      RunStopsAt(s, 0, i, Space);
    }
    var b := Run(s, a, NumberChar);
    assert j <= b by {
      RunCovers(s, i, j, NumberChar);
    }
    if b == j {
      TailGreedy(s, b, k, l);
    } else {
      // The group's extra characters are not spaces, so the match has no
      // spaces after its group and its non-space part covers them.
      RunFacts(s, a, NumberChar);
      assert InClass(s[j], NumberChar);
      assert k == j;
      assert l < |s| ==> IsSpace(s[l]);
      RunStopsAt(s, a, l, NumberChar);
      TailGreedy(s, b, b, l);
    }
    assert s[a..b][..j - i] == s[i..j];
  }

  /** Decomposition, character by character. */
  lemma {:induction false} DecompositionPointwise(s: string, i: nat, j: nat, k: nat, l: nat)
    requires Decomposition(s, i, j, k, l)
    ensures forall x :: 0 <= x < i ==> IsSpace(s[x])
    ensures forall x :: i <= x < j ==> InClass(s[x], NumberChar)
    ensures forall x :: j <= x < k ==> IsSpace(s[x])
    ensures forall x :: k <= x < l ==> !IsSpace(s[x])
    ensures forall x :: l <= x < |s| ==> IsSpace(s[x])
  {
    forall x | 0 <= x < i ensures IsSpace(s[x]) { assert s[..i][x] == s[x]; }
    forall x | i <= x < j ensures InClass(s[x], NumberChar) { assert s[i..j][x - i] == s[x]; }
    forall x | j <= x < k ensures IsSpace(s[x]) { assert s[j..k][x - j] == s[x]; }
    forall x | k <= x < l ensures !IsSpace(s[x]) { assert s[k..l][x - k] == s[x]; }
    forall x | l <= x < |s| ensures IsSpace(s[x]) { assert s[l..][x - l] == s[x]; }
  }

  // ---------------------------------------------------------------------
  // std::stod
  // ---------------------------------------------------------------------

  /** 10^e as a real, for any integer exponent. */
  function Scale(e: int): (r: real)
    ensures r > 0.0
  {
    if e >= 0 then Pow10(e) as real else 1.0 / Pow10(-e) as real
  }

  /** The number that integer digits worth `whole`, fraction digits worth
      `fraction` (`length` of them) and an exponent spell. */
  function Compose(whole: nat, fraction: nat, length: nat, exponent: int): real
  {
    (whole as real + fraction as real / Pow10(length) as real) * Scale(exponent)
  }

  /** The exponent part `e[+-]digits` at p, or 0 when there is none: an `e`
      not followed by digits is not part of the number. */
  function Exponent(s: string, p: nat): int
    requires p <= |s|
  {
    if p < |s| && (s[p] == 'e' || s[p] == 'E') then
      var q := p + 1;
      var neg := q < |s| && s[q] == '-';
      var start := if q < |s| && (s[q] == '-' || s[q] == '+') then q + 1 else q;
      var end := Run(s, start, Digit);
      if start == end then 0
      else
        RunFacts(s, start, Digit);
        assert AllIn(s[start..end], Digit);
        var v: int := DigitsValue(s[start..end]);
        if neg then -v else v
    else 0
  }

  lemma {:induction false} DigitSlice(s: string, p: nat, q: nat)
    requires p <= q <= |s|
    requires forall i :: p <= i < q ==> InClass(s[i], Digit)
    ensures AllDigits(s[p..q])
  {
    assert forall i :: 0 <= i < q - p ==> s[p..q][i] == s[p + i];
  }

  /** The decimal number at the start of s after optional spaces and sign:
      digits, optionally a point and more digits (at least one digit in
      all), optionally an exponent. None is `std::invalid_argument`: no
      conversion could be performed. */
  function Stod(s: string): (r: Option<real>)
    ensures r.Some? ==> exists i :: 0 <= i < |s| && IsDigit(s[i])
  {
    var p := Run(s, 0, Space);
    var negative := p < |s| && s[p] == '-';
    var q := if p < |s| && (s[p] == '-' || s[p] == '+') then p + 1 else p;
    var intEnd := Run(s, q, Digit);
    var point := intEnd < |s| && s[intEnd] == '.';
    var fracStart := if point then intEnd + 1 else intEnd;
    var fracEnd := Run(s, fracStart, Digit);
    if intEnd == q && fracEnd == fracStart then None
    else
      RunFacts(s, q, Digit);
      RunFacts(s, fracStart, Digit);
      DigitSlice(s, q, intEnd);
      DigitSlice(s, fracStart, fracEnd);
      var magnitude := Compose(DigitsValue(s[q..intEnd]), DigitsValue(s[fracStart..fracEnd]), fracEnd - fracStart,
                               Exponent(s, fracEnd));
      Some(if negative then -magnitude else magnitude)
  }

  /** A run of digits reads back as the number it denotes. */
  lemma {:induction false} StodDigits(s: string)
    requires 1 <= |s| && AllDigits(s)
    ensures Stod(s) == Some(DigitsValue(s) as real)
  {
    var n := |s|;
    assert !IsSpace(s[0]);
    assert Run(s, 0, Space) == 0;
    RunCovers(s, 0, n, Digit);
    assert Run(s, 0, Digit) == n;
    assert Run(s, n, Digit) == n;
    assert Exponent(s, n) == 0;
    assert Scale(0) == 1.0;
    assert s[0..n] == s;
    assert s[n..n] == [];
    assert Compose(DigitsValue(s), 0, 0, 0) == DigitsValue(s) as real;
  }

  /** Round trip: `stod` reads back the digits a stream prints for n. */
  lemma {:induction false} StodDecimal(n: nat)
    ensures Stod(Decimal(n)) == Some(n as real)
  {
    StodDigits(Decimal(n));
    DecimalRoundTrip(n);
  }

  /** A string with no digit before its first non-number character does
      not convert. */
  lemma {:induction false} StodLonePoint()
    ensures Stod(".") == None
    ensures Stod("abc") == None
    ensures Stod("") == None
  {
    assert Run(".", 1, Digit) == 1;
  }

  lemma {:induction false} StodFraction()
    ensures Stod("2.5") == Some(2.5)
  {
    var s := "2.5";
    assert Run(s, 0, Space) == 0;
    assert Run(s, 0, Digit) == 1;
    assert Run(s, 2, Digit) == 3;
    assert s[0..1] == "2" && s[2..3] == "5";
    assert DigitsValue("2") == 2 && DigitsValue("5") == 5;
    assert Pow10(1) == 10;
    assert Exponent(s, 3) == 0;
    assert Compose(2, 5, 1, 0) == 2.5;
  }

  lemma {:induction false} StodStopsAtText()
    ensures Stod(" 4 levels") == Some(4.0)
  {
    var t := " 4 levels";
    assert Run(t, 0, Space) == 1;
    assert Run(t, 1, Digit) == 2;
    assert Run(t, 2, Digit) == 2;
    assert t[1..2] == "4" && t[2..2] == [];
    assert DigitsValue("4") == 4;
    assert Exponent(t, 2) == 0;
    assert Compose(4, 0, 0, 0) == 4.0;
  }

  /** An unsigned number with both an integer and a fraction part is read
      as those two digit runs and the exponent after them. */
  lemma {:induction false} StodPointed(s: string, point: nat, e: nat)
    requires 0 < point && point + 1 < e <= |s| && s[point] == '.'
    requires !IsSpace(s[0]) && s[0] != '-' && s[0] != '+'
    requires Run(s, 0, Digit) == point && Run(s, point + 1, Digit) == e
    requires AllDigits(s[0..point]) && AllDigits(s[point + 1..e])
    ensures Stod(s) == Some(Compose(DigitsValue(s[0..point]), DigitsValue(s[point + 1..e]), e - (point + 1), Exponent(s, e)))
  {
    RunStopsAt(s, 0, 0, Space);
    assert Run(s, 0, Space) == 0;
    assert !(s[0] == '-' || s[0] == '+');
  }

  /** Digits, a point, digits, an exponent: each part is read as the
      number its digits denote. */
  lemma {:induction false} StodScientific(a: string, b: string, c: string)
    requires 1 <= |a| && 1 <= |b| && 1 <= |c| && AllDigits(a) && AllDigits(b) && AllDigits(c)
    ensures Stod(a + "." + b + "e" + c) == Some(Compose(DigitsValue(a), DigitsValue(b), |b|, DigitsValue(c)))
  {
    var s := a + "." + b + "e" + c;
    var point, e := |a|, |a| + 1 + |b|;
    assert forall i :: 0 <= i < point ==> s[i] == a[i];
    assert forall i :: point < i < e ==> s[i] == b[i - point - 1];
    assert s[point] == '.' && s[e] == 'e';
    RunCovers(s, 0, point, Digit);
    RunStopsAt(s, 0, point, Digit);
    RunCovers(s, point + 1, e, Digit);
    RunStopsAt(s, point + 1, e, Digit);
    assert s[0..point] == a && s[point + 1..e] == b;
    assert s[e + 1..] == c;
    ExponentDigits(s, e, c);
    StodPointed(s, point, e);
  }

  /** An `e` followed by digits to the end is a non-negative exponent. */
  lemma {:induction false} ExponentDigits(s: string, e: nat, c: string)
    requires e < |s| && s[e] == 'e' && s[e + 1..] == c && 1 <= |c| && AllDigits(c)
    ensures Exponent(s, e) == DigitsValue(c)
  {
    assert forall i :: e < i < |s| ==> s[i] == c[i - e - 1];
    assert s[e + 1] != '-' && s[e + 1] != '+';
    RunCovers(s, e + 1, |s|, Digit);
    assert s[e + 1..|s|] == c;
  }

  lemma {:induction false} StodExponent()
    ensures Stod("1.5e2") == Some(150.0)
  {
    assert DigitsValue("1") == 1 && DigitsValue("5") == 5 && DigitsValue("2") == 2;
    assert Pow10(1) == 10 && Pow10(2) == 100;
    assert Compose(1, 5, 1, 2) == 150.0;
    assert "1" + "." + "5" + "e" + "2" == "1.5e2";
    StodScientific("1", "5", "2");
  }

  // ---------------------------------------------------------------------
  // getBuildingHeight (osmwave.cxx:109-138)
  // ---------------------------------------------------------------------

  /** The exception `stod` throws on the height tag's group, which nothing
      catches: the run ends. */
  datatype HeightError = InvalidHeight(group: string)

  /** The height the tags give, under the named height and levels tags:
      the height tag's number when the tag is present and matches the
      pattern, else the default; without a height tag, the levels tag times
      3 when it parses, else the default. */
  function GetBuildingHeight(tags: map<string, string>, defaultHeight: real,
                             heightTagName: string, levelTagName: string): (r: Result<real, HeightError>)
    ensures r.Err? ==> heightTagName in tags && HeightPattern(tags[heightTagName]) == Some(r.error.group)
                       && Stod(r.error.group).None?
  {
    if heightTagName in tags then
      match HeightPattern(tags[heightTagName])
      case None => Ok(defaultHeight)
      case Some(group) =>
        match Stod(group)
        case None => Err(InvalidHeight(group))
        case Some(height) => Ok(height)
    else if levelTagName in tags then
      match Stod(tags[levelTagName])
      case None => Ok(defaultHeight)
      case Some(levels) => Ok(levels * MetersPerLevel)
    else Ok(defaultHeight)
  }

  /** With a height tag present, the levels tag is never consulted. */
  lemma {:induction false} HeightTagShadowsLevels(tags: map<string, string>, defaultHeight: real,
                               heightTagName: string, levelTagName: string, levels: string)
    requires heightTagName in tags && heightTagName != levelTagName
    ensures GetBuildingHeight(tags[levelTagName := levels], defaultHeight, heightTagName, levelTagName)
         == GetBuildingHeight(tags, defaultHeight, heightTagName, levelTagName)
  {
    assert tags[levelTagName := levels][heightTagName] == tags[heightTagName];
  }

  /** A height tag the pattern rejects gives the default. */
  lemma {:induction false} UnmatchedHeightIsDefault(tags: map<string, string>, defaultHeight: real,
                                 heightTagName: string, levelTagName: string)
    requires heightTagName in tags
    requires forall i: nat, j: nat, k: nat, l: nat :: !Decomposition(tags[heightTagName], i, j, k, l)
    ensures GetBuildingHeight(tags, defaultHeight, heightTagName, levelTagName) == Ok(defaultHeight)
  {
    if HeightPattern(tags[heightTagName]).Some? {
      HeightPatternSound(tags[heightTagName]);
    }
  }

  /** A height tag of digits, optionally followed by a unit, gives that
      number. */
  lemma {:induction false} NumericHeightTag(tags: map<string, string>, defaultHeight: real,
                         heightTagName: string, levelTagName: string, n: nat, unit: string)
    requires AllIn(unit, NonSpace)
    requires heightTagName in tags && tags[heightTagName] == Decimal(n) + unit
    requires 1 <= |unit| ==> !InClass(unit[0], NumberChar)
    ensures GetBuildingHeight(tags, defaultHeight, heightTagName, levelTagName) == Ok(n as real)
  {
    var s := tags[heightTagName];
    var d := Decimal(n);
    assert s[..|d|] == d;
    assert AllIn(s[..0], Space);
    assert AllIn(s[0..|d|], NumberChar);
    assert AllIn(s[|d|..|d|], Space);
    assert s[|d|..|s|] == unit;
    assert AllIn(s[|s|..], Space);
    assert Decomposition(s, 0, |d|, |d|, |s|);
    HeightPatternComplete(s, 0, |d|, |d|, |s|);
    var b := Run(s, 0, NumberChar);
    assert Run(s, 0, Space) == 0 by {
      assert InClass(s[0], NumberChar);
      RunStopsAt(s, 0, 0, Space);
    }
    assert b == |d| by {
      RunCovers(s, 0, |d|, NumberChar);
      RunStopsAt(s, 0, |d|, NumberChar);
    }
    assert HeightPattern(s) == Some(d);
    StodDecimal(n);
  }

  /** Without a height tag, a levels tag that parses gives levels × 3. */
  lemma {:induction false} LevelsTimesThree(tags: map<string, string>, defaultHeight: real,
                         heightTagName: string, levelTagName: string, n: nat)
    requires heightTagName !in tags && levelTagName in tags && tags[levelTagName] == Decimal(n)
    ensures GetBuildingHeight(tags, defaultHeight, heightTagName, levelTagName) == Ok(n as real * 3.0)
  {
    StodDecimal(n);
  }

  /** Without a height tag, an unparseable levels tag, or no levels tag,
      gives the default. */
  lemma {:induction false} LevelsFallBackToDefault(tags: map<string, string>, defaultHeight: real,
                                heightTagName: string, levelTagName: string)
    requires heightTagName !in tags
    requires levelTagName in tags ==> Stod(tags[levelTagName]).None?
    ensures GetBuildingHeight(tags, defaultHeight, heightTagName, levelTagName) == Ok(defaultHeight)
  {
  }

  /** A height tag of "." matches the pattern, and `stod` throws on it. */
  lemma {:induction false} LonePointHeightThrows(defaultHeight: real, heightTagName: string, levelTagName: string)
    ensures GetBuildingHeight(map[heightTagName := "."], defaultHeight, heightTagName, levelTagName)
         == Err(InvalidHeight("."))
  {
    var s := ".";
    assert Run(s, 0, Space) == 0;
    assert Run(s, 0, NumberChar) == 1;
    assert TailEnd(s, 1) == 1;
    assert s[0..1] == s;
    StodLonePoint();
  }
}
