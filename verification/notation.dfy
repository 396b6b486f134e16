/** The text recognisers of the geometry board's input box (MathNew.jsx):
    point notation `L = (a, b)` and the shape shortcuts `circle(r)`,
    `ellipse(a, b)`, `hyperbola(a, b)` and `heart`. Each regular expression is
    written out as a deterministic scanner; the character classes involved
    are disjoint, so backtracking never finds a different match. */
module Notation {
  import opened Wrappers
  import opened RealArith
  import opened JsText

  // ---------------------------------------------------------------- numbers

  function DigitValue(c: char): (d: nat)
    requires IsDigit(c)
    ensures d < 10
  {
    (c as int - '0' as int) as nat
  }

  /** The value of a run of decimal digits (0 for the empty run). */
  function DigitsValue(ds: string): nat
    requires forall i :: 0 <= i < |ds| ==> IsDigit(ds[i])
  {
    if |ds| == 0 then 0 else 10 * DigitsValue(ds[..|ds| - 1]) + DigitValue(ds[|ds| - 1])
  }

  /** The value of the digit run `s[j..d]`. */
  function RunValue(s: string, j: nat, d: nat): nat
    requires j <= d <= |s|
    requires forall t :: j <= t < d ==> IsDigit(s[t])
  {
    var ds := s[j..d];
    assert forall i :: 0 <= i < |ds| ==> ds[i] == s[j + i];
    DigitsValue(ds)
  }

  /** The end of the run of digits starting at `i`. */
  function DigitsEnd(s: string, i: nat): (j: nat)
    requires i <= |s|
    ensures i <= j <= |s|
    ensures forall t :: i <= t < j ==> IsDigit(s[t])
    ensures j < |s| ==> !IsDigit(s[j])
    decreases |s| - i
  {
    if i < |s| && IsDigit(s[i]) then DigitsEnd(s, i + 1) else i
  }

  /** A scanned number and the index just past it. */
  datatype Scanned = Scanned(value: real, end: nat)

  /** The token `-?\d+\.?\d*` at index `i`, valued as `parseFloat` values it:
      sign, whole digits, and the fraction digits over the matching power of ten. */
  function ScanNumber(s: string, i: nat): (r: Option<Scanned>)
    requires i <= |s|
    ensures r.Some? ==> i < r.value.end <= |s|
    ensures r.Some? ==> r.value.end == |s| || !IsDigit(s[r.value.end])
    ensures r.None? <==> var j := if i < |s| && s[i] == '-' then i + 1 else i;
                         j == |s| || !IsDigit(s[j])
    ensures r.Some? && s[i] != '-' ==> r.value.value >= 0.0
    ensures r.Some? && s[i] == '-' ==> r.value.value <= 0.0
  {
    var j := if i < |s| && s[i] == '-' then i + 1 else i;
    var d1 := DigitsEnd(s, j);
    if d1 == j then None else Some(ScanDigits(s, j > i, j, d1))
  }

  /** The number whose whole digits are `s[j..d1]`, negated when `negative`:
      an optional `.` and fraction digits follow. */
  function ScanDigits(s: string, negative: bool, j: nat, d1: nat): (r: Scanned)
    requires j < d1 <= |s|
    requires forall t :: j <= t < d1 ==> IsDigit(s[t])
    requires d1 == |s| || !IsDigit(s[d1])
    ensures d1 <= r.end <= |s|
    ensures r.end == |s| || !IsDigit(s[r.end])
    ensures !negative ==> r.value >= 0.0
    ensures negative ==> r.value <= 0.0
  {
    var whole := RunValue(s, j, d1) as real;
    if d1 < |s| && s[d1] == '.' then
      var d2 := DigitsEnd(s, d1 + 1);
      var frac := RunValue(s, d1 + 1, d2) as real / Pow10(d2 - d1 - 1);
      var mag := whole + frac;
      Scanned(if negative then -mag else mag, d2)
    else
      Scanned(if negative then -whole else whole, d1)
  }

  // ------------------------------------------------------- point notation

  /** A parsed `L = (a, b)`: the label letter and the two coordinates. */
  datatype PointSpec = PointSpec(labelChar: char, x: real, y: real)

  /** `\s*c`: skip white space, then expect the character `c`; the index
      after it on success. */
  function Expect(s: string, i: nat, c: char): (r: Option<nat>)
    requires i <= |s|
    ensures r.Some? ==> i < r.value <= |s| && s[r.value - 1] == c
    ensures !IsJsSpace(c) ==> (r.Some? <==> SkipSpace(s, i) < |s| && s[SkipSpace(s, i)] == c)
  {
    var k := SkipSpace(s, i);
    if k < |s| && s[k] == c then Some(k + 1) else None
  }

  /** The two numbers between the parentheses. */
  datatype Coords = Coords(x: real, y: real)

  /** A number read up to its delimiter, and the index just after the delimiter. */
  datatype Delimited = Delimited(value: real, next: nat)

  /** `\s*(number)\s*c`: a number and the index just after the delimiter `c`
      that follows it. */
  function NumberThen(s: string, i: nat, c: char): (r: Option<Delimited>)
    requires i <= |s|
    ensures r.Some? ==> i < r.value.next <= |s| && s[r.value.next - 1] == c
  {
    match ScanNumber(s, SkipSpace(s, i))
    case None => None
    case Some(a) =>
      match Expect(s, a.end, c)
      case None => None
      case Some(k) => Some(Delimited(a.value, k))
  }

  /** `\s*(number)\s*,\s*(number)\s*\)$`, starting just after the `(`. */
  function ParseCoords(s: string, i: nat): (r: Option<Coords>)
    requires i <= |s|
    ensures r.Some? ==> |s| > 0 && s[|s| - 1] == ')'
  {
    var a := NumberThen(s, i, ',');
    if a.None? then None
    else
      var b := NumberThen(s, a.value.next, ')');
      if b.Some? && b.value.next == |s| then Some(Coords(a.value.value, b.value.value)) else None
  }

  /** `^([a-zA-Z])\s*=\s*\(\s*(-?\d+\.?\d*)\s*,\s*(-?\d+\.?\d*)\s*\)$` with
      `parseFloat` applied to both numbers. */
  function ParsePoint(s: string): (r: Option<PointSpec>)
    ensures r.Some? ==> |s| > 0 && IsAsciiLetter(s[0]) && r.value.labelChar == s[0]
    ensures r.Some? ==> s[|s| - 1] == ')'
    ensures |s| == 0 || !IsAsciiLetter(s[0]) ==> r.None?
  {
    if |s| == 0 || !IsAsciiLetter(s[0]) then None
    else
      match Expect(s, 1, '=')
      case None => None
      case Some(i2) =>
        match Expect(s, i2, '(')
        case None => None
        case Some(i3) =>
          match ParseCoords(s, i3)
          case None => None
          case Some(xy) => Some(PointSpec(s[0], xy.x, xy.y))
  }

  // ------------------------------------------------ writing point notation

  function DigitChar(d: nat): (c: char)
    requires d < 10
    ensures IsDigit(c) && DigitValue(c) == d
  {
    ('0' as int + d) as char
  }

  /** The decimal digits of `n`, most significant first, without leading zeros. */
  function NatText(n: nat): (t: string)
    ensures |t| >= 1
    ensures forall i :: 0 <= i < |t| ==> IsDigit(t[i])
    decreases n
  {
    if n < 10 then [DigitChar(n)] else NatText(n / 10) + [DigitChar(n % 10)]
  }

  /** An integer as the text a user would type for it. */
  function IntText(n: int): (t: string)
    ensures |t| >= 1
    ensures n >= 0 ==> t == NatText(n)
    ensures n < 0 ==> t == "-" + NatText(-n)
  {
    if n < 0 then "-" + NatText(-n) else NatText(n)
  }

  /** Reading back the digits of `n` gives `n`. */
  lemma {:induction false} NatTextValue(n: nat)
    ensures DigitsValue(NatText(n)) == n
    decreases n
  {
    if n >= 10 {
      var t := NatText(n);
      assert t[..|t| - 1] == NatText(n / 10);
      NatTextValue(n / 10);
    }
  }

  /** A digit run that ends where `s[k]` is not a digit ends at `k`. */
  lemma {:induction false} DigitsEndAt(s: string, j: nat, k: nat)
    requires j <= k <= |s|
    requires forall t :: j <= t < k ==> IsDigit(s[t])
    requires k == |s| || !IsDigit(s[k])
    ensures DigitsEnd(s, j) == k
    decreases k - j
  {
    if j < k {
      DigitsEndAt(s, j + 1, k);
    }
  }

  /** The text of an integer, followed by anything other than a digit or a
      decimal point, scans back to that integer. */
  lemma ScanIntText(s: string, i: nat, n: int)
    requires i + |IntText(n)| <= |s|
    requires s[i..i + |IntText(n)|] == IntText(n)
    requires var k := i + |IntText(n)|; k == |s| || (!IsDigit(s[k]) && s[k] != '.')
    ensures ScanNumber(s, i) == Some(Scanned(n as real, i + |IntText(n)|))
  {
    var k := i + |IntText(n)|;
    var m: nat := if n < 0 then -n else n;
    var j := if n < 0 then i + 1 else i;
    IntTextLayout(s, i, n);
    DigitRun(s, j, k, m);
    ScanWhole(s, i, j, k);
  }

  /** The text of `n` at `i`: a minus sign exactly when `n` is negative, then
      the digits of its magnitude. */
  lemma IntTextLayout(s: string, i: nat, n: int)
    requires i + |IntText(n)| <= |s|
    requires s[i..i + |IntText(n)|] == IntText(n)
    ensures s[i] == '-' <==> n < 0
    ensures var j := if n < 0 then i + 1 else i;
            s[j..i + |IntText(n)|] == NatText(if n < 0 then -n else n)
  {
    var t := IntText(n);
    var k := i + |t|;
    var m: nat := if n < 0 then -n else n;
    var j := if n < 0 then i + 1 else i;
    assert s[i] == t[0];
    if n >= 0 {
      assert IsDigit(t[0]);
    }
    assert t[j - i..] == NatText(m) by {
      if n < 0 {
        assert t == "-" + NatText(m);
      }
    }
    assert s[j..k] == s[i..k][j - i..];
  }

  /** The digits of `m` written at `s[j..k]` are a digit run worth `m`. */
  lemma DigitRun(s: string, j: nat, k: nat, m: nat)
    requires j <= k <= |s| && s[j..k] == NatText(m)
    ensures forall u :: j <= u < k ==> IsDigit(s[u])
    ensures RunValue(s, j, k) == m
  {
    forall u | j <= u < k
      ensures IsDigit(s[u])
    {
      assert s[u] == s[j..k][u - j];
    }
    NatTextValue(m);
  }

  /** A run of digits after an optional sign, ended by neither a digit nor a
      decimal point, scans as a whole number. */
  lemma ScanWhole(s: string, i: nat, j: nat, k: nat)
    requires j == (if i < |s| && s[i] == '-' then i + 1 else i)
    requires j < k <= |s|
    requires forall u :: j <= u < k ==> IsDigit(s[u])
    requires k == |s| || (!IsDigit(s[k]) && s[k] != '.')
    ensures var v := RunValue(s, j, k) as real;
            ScanNumber(s, i) == Some(Scanned(if j > i then -v else v, k))
  {
    DigitsEndAt(s, j, k);
  }

  /** `L = (a, b)` with integer coordinates, as a user types it. */
  function FormatPoint(l: char, a: int, b: int): string
  {
    [l] + " = (" + IntText(a) + ", " + IntText(b) + ")"
  }

  lemma ExpectAt(s: string, i: nat, c: char, k: nat)
    requires i <= k < |s| && BlankRange(s, i, k) && s[k] == c && !IsJsSpace(c)
    ensures Expect(s, i, c) == Some(k + 1)
  {
    SkipSpaceAt(s, i, k);
  }

  lemma {:induction false} SkipSpaceAt(s: string, i: nat, k: nat)
    requires i <= k <= |s| && BlankRange(s, i, k)
    requires k == |s| || !IsJsSpace(s[k])
    ensures SkipSpace(s, i) == k
    decreases k - i
  {
    if i < k {
      SkipSpaceAt(s, i + 1, k);
    }
  }

  /** `ParseCoords` succeeds when each of its four steps does, ending at the
      end of the text. */
  lemma ParseCoordsSteps(s: string, i: nat, p1: nat, first: Scanned, comma: nat, p2: nat, second: Scanned)
    requires i <= |s| && SkipSpace(s, i) == p1
    requires p1 <= |s| && ScanNumber(s, p1) == Some(first)
    requires first.end <= |s| && Expect(s, first.end, ',') == Some(comma)
    requires comma <= |s| && SkipSpace(s, comma) == p2
    requires p2 <= |s| && ScanNumber(s, p2) == Some(second)
    requires second.end <= |s| && Expect(s, second.end, ')') == Some(|s|)
    ensures ParseCoords(s, i) == Some(Coords(first.value, second.value))
  {
    assert NumberThen(s, i, ',') == Some(Delimited(first.value, comma));
    assert NumberThen(s, comma, ')') == Some(Delimited(second.value, |s|));
  }

  /** `s` is `L = (a, b)` laid out as typed: the label `l`, the punctuation
      at fixed offsets from the two number texts of lengths `na` and `nb`,
      and numbers that scan to `a` and `b`. */
  predicate PointLaidOut(s: string, l: char, na: nat, nb: nat, a: real, b: real) {
    && |s| == 8 + na + nb && s[0] == l && IsAsciiLetter(l)
    && s[1] == ' ' && s[2] == '=' && s[3] == ' ' && s[4] == '('
    && s[5 + na] == ',' && s[6 + na] == ' ' && s[7 + na + nb] == ')'
    && !IsJsSpace(s[5]) && !IsJsSpace(s[7 + na])
    && ScanNumber(s, 5) == Some(Scanned(a, 5 + na))
    && ScanNumber(s, 7 + na) == Some(Scanned(b, 7 + na + nb))
  }

  /** The scanner's path through a well-formed `L = (a, b)`. */
  lemma ParsePointLayout(s: string, l: char, na: nat, nb: nat, a: real, b: real)
    requires PointLaidOut(s, l, na, nb, a, b)
    ensures ParsePoint(s) == Some(PointSpec(l, a, b))
  {
    PointPunctuation(s, na, nb);
    var first, second := ScanNumber(s, 5).value, ScanNumber(s, 7 + na).value;
    ParseCoordsSteps(s, 5, 5, first, 6 + na, 7 + na, second);
    ParsePointSteps(s, 3, 5, Coords(a, b));
  }

  /** Where the white-space skips and expected characters of a well-formed
      `L = (a, b)` land, whatever the numbers are. */
  lemma PointPunctuation(s: string, na: nat, nb: nat)
    requires |s| == 8 + na + nb
    requires s[1] == ' ' && s[2] == '=' && s[3] == ' ' && s[4] == '('
    requires s[5 + na] == ',' && s[6 + na] == ' ' && s[7 + na + nb] == ')'
    requires !IsJsSpace(s[5]) && !IsJsSpace(s[7 + na])
    ensures Expect(s, 1, '=') == Some(3) && Expect(s, 3, '(') == Some(5)
    ensures SkipSpace(s, 5) == 5 && Expect(s, 5 + na, ',') == Some(6 + na)
    ensures SkipSpace(s, 6 + na) == 7 + na && Expect(s, 7 + na + nb, ')') == Some(|s|)
  {
    ExpectAt(s, 1, '=', 2);
    ExpectAt(s, 3, '(', 4);
    SkipSpaceAt(s, 5, 5);
    ExpectAt(s, 5 + na, ',', 5 + na);
    SkipSpaceAt(s, 6 + na, 7 + na);
    ExpectAt(s, 7 + na + nb, ')', 7 + na + nb);
  }

  /** `ParsePoint` succeeds when its label, `=`, `(` and coordinate steps do. */
  lemma ParsePointSteps(s: string, i2: nat, i3: nat, xy: Coords)
    requires |s| > 0 && IsAsciiLetter(s[0])
    requires Expect(s, 1, '=') == Some(i2)
    requires i2 <= |s| && Expect(s, i2, '(') == Some(i3)
    requires i3 <= |s| && ParseCoords(s, i3) == Some(xy)
    ensures ParsePoint(s) == Some(PointSpec(s[0], xy.x, xy.y))
  {
  }

  /** Where each piece of a formatted point sits. */
  predicate PointShaped(s: string, l: char, a: int, b: int) {
    var na, nb := |IntText(a)|, |IntText(b)|;
    && |s| == 8 + na + nb && s[0] == l
    && s[1] == ' ' && s[2] == '=' && s[3] == ' ' && s[4] == '('
    && s[5..5 + na] == IntText(a)
    && s[5 + na] == ',' && s[6 + na] == ' '
    && s[7 + na..7 + na + nb] == IntText(b)
    && s[7 + na + nb] == ')'
  }

  lemma FormatPointShape(l: char, a: int, b: int)
    ensures PointShaped(FormatPoint(l, a, b), l, a, b)
  {
    var ta, tb := IntText(a), IntText(b);
    var p1 := [l] + " = (";
    var p2 := p1 + ta;
    var p3 := p2 + ", ";
    var p4 := p3 + tb;
    var s := p4 + ")";
    assert s == FormatPoint(l, a, b);
    assert s[..|p4|] == p4;
    assert p4[..|p3|] == p3;
    assert p3[..|p2|] == p2;
    assert p2[..|p1|] == p1;
    assert p2[5..] == ta;
    assert p4[|p3|..] == tb;
  }

  /** Text shaped like `L = (a, b)` with integer coordinates is laid out as
      the scanner expects. */
  lemma ShapedIsLaidOut(s: string, l: char, a: int, b: int)
    requires IsAsciiLetter(l) && PointShaped(s, l, a, b)
    ensures PointLaidOut(s, l, |IntText(a)|, |IntText(b)|, a as real, b as real)
  {
    var ta, tb := IntText(a), IntText(b);
    ShapedNumbersStart(s, l, a, b);
    ScanIntText(s, 5, a);
    ScanIntText(s, 7 + |ta|, b);
  }

  /** In text shaped like `L = (a, b)` neither number starts with white space. */
  lemma ShapedNumbersStart(s: string, l: char, a: int, b: int)
    requires PointShaped(s, l, a, b)
    ensures !IsJsSpace(s[5]) && !IsJsSpace(s[7 + |IntText(a)|])
  {
    var ta, tb := IntText(a), IntText(b);
    assert s[5] == ta[0] by { assert s[5..5 + |ta|][0] == s[5]; }
    assert s[7 + |ta|] == tb[0] by { assert s[7 + |ta|..7 + |ta| + |tb|][0] == s[7 + |ta|]; }
    IntTextStart(a);
    IntTextStart(b);
  }

  /** An integer's text starts with a digit or a minus sign, never with white space. */
  lemma IntTextStart(n: int)
    ensures !IsJsSpace(IntText(n)[0])
  {
    var t := IntText(n);
    assert IsDigit(t[0]) || t[0] == '-';
  }

  /** Point notation written with integer coordinates parses back to the
      same label and coordinates. */
  lemma PointRoundTrip(l: char, a: int, b: int)
    requires IsAsciiLetter(l)
    ensures ParsePoint(FormatPoint(l, a, b)) == Some(PointSpec(l, a as real, b as real))
  {
    FormatPointShape(l, a, b);
    ShapedIsLaidOut(FormatPoint(l, a, b), l, a, b);
    ParsePointLayout(FormatPoint(l, a, b), l, |IntText(a)|, |IntText(b)|, a as real, b as real);
  }

  // ------------------------------------------------------- shape shortcuts

  /** The first index of `c` in `s`. */
  function FirstIndex(s: string, c: char): (r: Option<nat>)
    ensures r.Some? ==> r.value < |s| && s[r.value] == c && c !in s[..r.value]
    ensures r.None? <==> c !in s
  {
    if |s| == 0 then None
    else if s[0] == c then Some(0)
    else match FirstIndex(s[1..], c)
      case None => None
      case Some(i) =>
        assert s[..i + 1] == [s[0]] + s[1..][..i];
        Some(i + 1)
  }

  /** `^word\s*\(` ... `\)$` under the `i` flag: the text between the
      opening parenthesis and the final closing one. */
  function CallArgs(s: string, word: string): (r: Option<string>)
    ensures r.Some? ==> |word| < |s| && MatchesWordIgnoringCase(s[..|word|], word)
    ensures r.Some? ==> s[|s| - 1] == ')' && |r.value| < |s|
  {
    if |s| < |word| || !MatchesWordIgnoringCase(s[..|word|], word) then None
    else
      var k := SkipSpace(s, |word|);
      if k + 1 < |s| && s[k] == '(' && s[|s| - 1] == ')' then Some(s[k + 1..|s| - 1]) else None
  }

  /** `^circle\s*\(\s*([^)]+)\s*\)$`: the trimmed radius text. */
  function CircleArg(s: string): (r: Option<string>)
    ensures r.Some? ==> ')' !in r.value
  {
    match CallArgs(s, "circle")
    case None => None
    case Some(inner) =>
      if |inner| > 0 && ')' !in inner then
        TrimKeepsOut(inner, ')');
        Some(Trim(inner))
      else None
  }

  /** `^word\s*\(\s*([^,]+)\s*,\s*([^)]+)\s*\)$`: the two trimmed arguments,
      split at the first comma. */
  function TwoArgs(s: string, word: string): (r: Option<(string, string)>)
    ensures r.Some? ==> ',' !in r.value.0 && ')' !in r.value.1
  {
    match CallArgs(s, word)
    case None => None
    case Some(inner) =>
      match FirstIndex(inner, ',')
      case None => None
      case Some(c) =>
        var a, b := inner[..c], inner[c + 1..];
        if |a| > 0 && |b| > 0 && ')' !in b then
          TrimKeepsOut(a, ',');
          TrimKeepsOut(b, ')');
          Some((Trim(a), Trim(b)))
        else None
  }

  /** Trimming removes characters, so it cannot introduce one. */
  lemma TrimKeepsOut(s: string, c: char)
    requires c !in s
    ensures c !in Trim(s)
  {
  }

  const HeartText := "(x^2 + y^2 - 1)^3 = x^2 * y^3"

  /** What `updateFunction` stores for the text typed into a row that is not
      point notation: the expansion of a recognised shortcut, or the text itself. */
  function Rewrite(s: string): (r: string)
  {
    match CircleArg(s)
    case Some(rad) => "x^2 + y^2 = (" + rad + ")^2"
    case None =>
      match TwoArgs(s, "ellipse")
      case Some(ab) => "(x/(" + ab.0 + "))^2 + (y/(" + ab.1 + "))^2 = 1"
      case None =>
        if MatchesWordIgnoringCase(s, "heart") then HeartText
        else
          match TwoArgs(s, "hyperbola")
          case Some(ab) => "(x/(" + ab.0 + "))^2 - (y/(" + ab.1 + "))^2 = 1"
          case None => s
  }

  /** Text with no opening parenthesis that is not `heart` is stored as typed. */
  lemma RewriteVerbatim(s: string)
    requires '(' !in s && !MatchesWordIgnoringCase(s, "heart")
    ensures Rewrite(s) == s
  {
  }

  /** The text is a trimmed, non-empty shortcut argument without `stop`. */
  predicate CleanArg(t: string, stop: char) {
    |t| > 0 && !IsJsSpace(t[0]) && !IsJsSpace(t[|t| - 1]) && stop !in t
  }

  lemma CallArgsOf(word: string, spelled: string, args: string)
    requires MatchesWordIgnoringCase(spelled, word)
    ensures CallArgs(spelled + "(" + args + ")", word) == Some(args)
  {
    var s := spelled + "(" + args + ")";
    assert s[..|word|] == spelled;
    assert s[|word|] == '(';
    SkipSpaceAt(s, |word|, |word|);
    assert s[|word| + 1..|s| - 1] == args;
  }

  /** `circle(r)`, in any letter case, becomes `x^2 + y^2 = (r)^2`, which the
      renderer recognises by its `x^2 + y^2` prefix and its `=`. */
  lemma CircleShortcut(spelled: string, rad: string)
    requires MatchesWordIgnoringCase(spelled, "circle") && CleanArg(rad, ')')
    ensures Rewrite(spelled + "(" + rad + ")") == "x^2 + y^2 = (" + rad + ")^2"
    ensures var r := Rewrite(spelled + "(" + rad + ")");
            r[..9] == "x^2 + y^2" && '=' in r
  {
    CallArgsOf("circle", spelled, rad);
    TrimTrimmed(rad);
    var r := "x^2 + y^2 = (" + rad + ")^2";
    assert r[10] == '=';
  }

  /** The two arguments of `word(a, b)` are read back as `a` and `b`. */
  lemma TwoArgsOf(word: string, spelled: string, a: string, b: string)
    requires MatchesWordIgnoringCase(spelled, word)
    requires CleanArg(a, ',') && CleanArg(b, ')')
    ensures TwoArgs(spelled + "(" + a + ", " + b + ")", word) == Some((a, b))
  {
    var args := a + ", " + b;
    assert spelled + "(" + a + ", " + b + ")" == spelled + "(" + args + ")";
    CallArgsOf(word, spelled, args);
    SplitAtFirstComma(a, b);
  }

  /** `ellipse(a, b)` becomes `(x/(a))^2 + (y/(b))^2 = 1`. */
  lemma EllipseShortcut(spelled: string, a: string, b: string)
    requires MatchesWordIgnoringCase(spelled, "ellipse")
    requires CleanArg(a, ',') && CleanArg(b, ')')
    ensures Rewrite(spelled + "(" + a + ", " + b + ")")
         == "(x/(" + a + "))^2 + (y/(" + b + "))^2 = 1"
  {
    var s := spelled + "(" + a + ", " + b + ")";
    TwoArgsOf("ellipse", spelled, a, b);
    assert s[0] == spelled[0];
    WrongInitial(s, "circle");
  }

  /** `hyperbola(a, b)` becomes `(x/(a))^2 - (y/(b))^2 = 1`. */
  lemma HyperbolaShortcut(spelled: string, a: string, b: string)
    requires MatchesWordIgnoringCase(spelled, "hyperbola")
    requires CleanArg(a, ',') && CleanArg(b, ')')
    ensures Rewrite(spelled + "(" + a + ", " + b + ")")
         == "(x/(" + a + "))^2 - (y/(" + b + "))^2 = 1"
  {
    var s := spelled + "(" + a + ", " + b + ")";
    TwoArgsOf("hyperbola", spelled, a, b);
    assert s[0] == spelled[0];
    WrongInitial(s, "circle");
    WrongInitial(s, "ellipse");
    assert |s| > 5;
  }

  /** A call spelled with another first letter is not this shortcut. */
  lemma WrongInitial(s: string, word: string)
    requires |s| > 0 && |word| > 0 && LowerAscii(s[0]) != word[0]
    ensures CallArgs(s, word).None?
  {
    if |s| >= |word| {
      assert s[..|word|][0] == s[0];
    }
  }

  /** `heart`, in any letter case, becomes the fixed heart curve. */
  lemma HeartShortcut(spelled: string)
    requires MatchesWordIgnoringCase(spelled, "heart")
    ensures Rewrite(spelled) == HeartText
  {
  }

  /** `a, b` splits at the comma into `a` and a `b` that trims back to itself. */
  lemma SplitAtFirstComma(a: string, b: string)
    requires CleanArg(a, ',') && CleanArg(b, ')')
    ensures var args := a + ", " + b;
            && FirstIndex(args, ',') == Some(|a|)
            && args[..|a|] == a && Trim(args[|a| + 1..]) == b && Trim(a) == a
            && ')' !in args[|a| + 1..]
  {
    var args := a + ", " + b;
    assert args[..|a|] == a;
    assert args[|a|] == ',';
    FirstIndexAt(args, ',', |a|);
    var rest := args[|a| + 1..];
    assert rest == " " + b;
    TrimTrimmed(a);
    TrimLeadingSpace(b);
  }

  lemma FirstIndexAt(s: string, c: char, i: nat)
    requires i < |s| && s[i] == c && c !in s[..i]
    ensures FirstIndex(s, c) == Some(i)
  {
  }

  /** One leading space is trimmed away. */
  lemma TrimLeadingSpace(b: string)
    requires |b| > 0 && !IsJsSpace(b[0]) && !IsJsSpace(b[|b| - 1])
    ensures Trim(" " + b) == b
  {
    var t := " " + b;
    SkipSpaceAt(t, 0, 1);
    assert SkipSpaceBack(t, 1, |t|) == |t|;
    assert t[1..] == b;
  }
}
