/** Recovering sector bounds from direction-bin label strings, as the `BySector`
    branch of `_apply` does with `re.findall(r"[-+]?\d*\.\d+|\d+", label)` and
    `float(...)`: the labels look like "345.0-15.0", "15.0-45.0", ... . Digits are
    the ASCII digits '0'..'9'. */
module Labels {
  import opened Wrappers
  import opened Errors

  predicate IsDigit(c: char) {
    '0' <= c <= '9'
  }

  predicate IsSign(c: char) {
    c == '-' || c == '+'
  }

  /** End of the maximal run of digits starting at `i`. */
  function DigitRun(s: string, i: nat): (j: nat)
    requires i <= |s|
    ensures i <= j <= |s|
    ensures forall k :: i <= k < j ==> IsDigit(s[k])
    ensures j == |s| || !IsDigit(s[j])
    decreases |s| - i
  {
    if i < |s| && IsDigit(s[i]) then DigitRun(s, i + 1) else i
  }

  /** End of a match of the first alternative `[-+]?\d*\.\d+` starting at `i`. The
      optional sign is taken when present (without it the pattern cannot match at a
      sign), `\d*` must be the maximal run because only a '.' may follow it, and
      `\d+` is greedy. */
  function MatchDecimal(s: string, i: nat): (e: Option<nat>)
    requires i <= |s|
    ensures e.Some? ==> i < e.value <= |s|
  {
    var p := if i < |s| && IsSign(s[i]) then i + 1 else i;
    var d := DigitRun(s, p);
    if d + 1 < |s| && s[d] == '.' && IsDigit(s[d + 1]) then Some(DigitRun(s, d + 1)) else None
  }

  /** End of a match of the second alternative `\d+` starting at `i`. */
  function MatchInteger(s: string, i: nat): (e: Option<nat>)
    requires i <= |s|
    ensures e.Some? ==> i < e.value <= |s|
  {
    if i < |s| && IsDigit(s[i]) then Some(DigitRun(s, i)) else None
  }

  /** End of the leftmost-alternative match at `i`, if any. */
  function MatchAt(s: string, i: nat): (e: Option<nat>)
    requires i <= |s|
    ensures e.Some? ==> i < e.value <= |s|
  {
    var d := MatchDecimal(s, i);
    if d.Some? then d else MatchInteger(s, i)
  }

  function DigitValue(c: char): nat
    requires IsDigit(c)
  {
    (c as int - '0' as int) as nat
  }

  /** The number written by the digits `s[i..j]` (0 for an empty run). */
  function DigitsValue(s: string, i: nat, j: nat): nat
    requires i <= j <= |s| && forall k :: i <= k < j ==> IsDigit(s[k])
    decreases j - i
  {
    if j == i then 0 else 10 * DigitsValue(s, i, j - 1) + DigitValue(s[j - 1])
  }

  function Pow10(n: nat): (r: nat)
    ensures r >= 1
  {
    if n == 0 then 1 else 10 * Pow10(n - 1)
  }

  /** `float` of a matched token `s[i..e]`: an optional sign, an integer part and an
      optional fraction. */
  function TokenValue(s: string, i: nat, e: nat): real
    requires i <= e <= |s|
  {
    var neg := i < e && s[i] == '-';
    var p := if i < e && IsSign(s[i]) then i + 1 else i;
    var d := if DigitRun(s, p) <= e then DigitRun(s, p) else e;
    var whole := DigitsValue(s, p, d) as real;
    var frac :=
      if d + 1 < e && s[d] == '.' && DigitRun(s, d + 1) == e
      then DigitsValue(s, d + 1, e) as real / Pow10(e - d - 1) as real
      else 0.0;
    if neg then -(whole + frac) else whole + frac
  }

  /** `re.findall` with `float` applied to each match, scanning from position `i`. */
  function NumbersFrom(s: string, i: nat): seq<real>
    requires i <= |s|
    decreases |s| - i
  {
    if i == |s| then []
    else
      var m := MatchAt(s, i);
      if m.Some? then [TokenValue(s, i, m.value)] + NumbersFrom(s, m.value)
      else NumbersFrom(s, i + 1)
  }

  function Numbers(s: string): seq<real> {
    NumbersFrom(s, 0)
  }

  ghost predicate AllDigits(s: string) {
    forall k :: 0 <= k < |s| ==> IsDigit(s[k])
  }

  /** The value of the decimal numeral `a.b`. */
  function DecimalValue(a: string, b: string): real
    requires AllDigits(a) && AllDigits(b)
  {
    DigitsValue(a, 0, |a|) as real + DigitsValue(b, 0, |b|) as real / Pow10(|b|) as real
  }

  lemma {:induction false} DigitRunEnds(s: string, i: nat, j: nat)
    requires i <= j <= |s| && forall k :: i <= k < j ==> IsDigit(s[k])
    requires j == |s| || !IsDigit(s[j])
    ensures DigitRun(s, i) == j
    decreases j - i
  {
    if i < j {
      DigitRunEnds(s, i + 1, j);
    }
  }

  /** The value of a digit run depends only on the characters in it. */
  lemma {:induction false} DigitsValueSlice(s: string, i: nat, j: nat, t: string, m: nat, n: nat)
    requires i <= j <= |s| && forall k :: i <= k < j ==> IsDigit(s[k])
    requires m <= n <= |t| && forall k :: m <= k < n ==> IsDigit(t[k])
    requires s[i..j] == t[m..n]
    ensures DigitsValue(s, i, j) == DigitsValue(t, m, n)
    decreases j - i
  {
    if i < j {
      assert s[j - 1] == s[i..j][j - 1 - i] == t[m..n][n - 1 - m] == t[n - 1];
      assert s[i..j - 1] == s[i..j][..j - 1 - i] == t[m..n][..n - 1 - m] == t[m..n - 1];
      DigitsValueSlice(s, i, j - 1, t, m, n - 1);
    }
  }

  /** A decimal token, signed when `s[i]` is a sign, that runs from `i` to `e` with its
      point at `dot`. */
  ghost predicate DecimalToken(s: string, i: nat, dot: nat, e: nat) {
    var p := if i < |s| && IsSign(s[i]) then i + 1 else i;
    p <= dot && dot + 1 < e <= |s| && s[dot] == '.'
    && (forall k :: p <= k < dot ==> IsDigit(s[k]))
    && (forall k :: dot < k < e ==> IsDigit(s[k]))
    && (e == |s| || !IsDigit(s[e]))
  }

  lemma DecimalMatch(s: string, i: nat, dot: nat, e: nat)
    requires DecimalToken(s, i, dot, e)
    ensures MatchAt(s, i) == Some(e)
  {
    var p := if i < |s| && IsSign(s[i]) then i + 1 else i;
    DigitRunEnds(s, p, dot);
    DigitRunEnds(s, dot + 1, e);
  }

  lemma UnsignedDecimalValue(s: string, i: nat, dot: nat, e: nat)
    requires DecimalToken(s, i, dot, e) && !IsSign(s[i])
    ensures TokenValue(s, i, e)
         == DigitsValue(s, i, dot) as real + DigitsValue(s, dot + 1, e) as real / Pow10(e - dot - 1) as real
  {
    DigitRunEnds(s, i, dot);
    DigitRunEnds(s, dot + 1, e);
  }

  lemma NegativeDecimalValue(s: string, i: nat, dot: nat, e: nat)
    requires DecimalToken(s, i, dot, e) && s[i] == '-'
    ensures TokenValue(s, i, e)
         == -(DigitsValue(s, i + 1, dot) as real + DigitsValue(s, dot + 1, e) as real / Pow10(e - dot - 1) as real)
  {
    DigitRunEnds(s, i + 1, dot);
    DigitRunEnds(s, dot + 1, e);
  }

  /** An unsigned run of digits from `i` to `e` that no point follows. */
  ghost predicate IntegerToken(s: string, i: nat, e: nat) {
    i < e <= |s| && (forall k :: i <= k < e ==> IsDigit(s[k]))
    && (e == |s| || (!IsDigit(s[e]) && s[e] != '.'))
  }

  lemma IntegerMatch(s: string, i: nat, e: nat)
    requires IntegerToken(s, i, e)
    ensures MatchAt(s, i) == Some(e)
    ensures TokenValue(s, i, e) == DigitsValue(s, i, e) as real
  {
    DigitRunEnds(s, i, e);
  }

  lemma DigitsValueOf(s: string, i: nat, j: nat, t: string)
    requires i <= j <= |s| && forall k :: i <= k < j ==> IsDigit(s[k])
    requires AllDigits(t) && s[i..j] == t
    ensures DigitsValue(s, i, j) == DigitsValue(t, 0, |t|)
  {
    assert t[0..|t|] == t;
    DigitsValueSlice(s, i, j, t, 0, |t|);
  }

  lemma NumbersStep(s: string, i: nat, e: nat)
    requires i < |s| && MatchAt(s, i) == Some(e)
    ensures NumbersFrom(s, i) == [TokenValue(s, i, e)] + NumbersFrom(s, e)
  {
  }

  lemma NumbersTwoTokens(s: string, e1: nat)
    requires 0 < e1 < |s| && MatchAt(s, 0) == Some(e1) && MatchAt(s, e1) == Some(|s|)
    ensures Numbers(s) == [TokenValue(s, 0, e1), TokenValue(s, e1, |s|)]
  {
    NumbersStep(s, 0, e1);
    NumbersStep(s, e1, |s|);
  }

  /** A label "a.b-c.d" yields the two numbers a.b and -c.d: the dash is read as the sign
      of the second number. */
  lemma DecimalLabel(a: string, b: string, c: string, d: string)
    requires AllDigits(a) && AllDigits(b) && AllDigits(c) && AllDigits(d)
    requires |b| > 0 && |d| > 0
    ensures Numbers(a + "." + b + "-" + c + "." + d) == [DecimalValue(a, b), -DecimalValue(c, d)]
  {
    var s := a + "." + b + "-" + c + "." + d;
    var p1 := |a|;
    var e1 := p1 + 1 + |b|;
    var p2 := e1 + 1 + |c|;
    LabelShape(a, b, c, d);
    TwoDecimals(s, p1, e1, p2, a, b, c, d);
  }

  /** A string made of an unsigned decimal token and a decimal token after a dash. */
  lemma TwoDecimals(s: string, p1: nat, e1: nat, p2: nat, a: string, b: string, c: string, d: string)
    requires AllDigits(a) && AllDigits(b) && AllDigits(c) && AllDigits(d)
    requires 0 < e1 < |s| && s[e1] == '-' && !IsSign(s[0])
    requires p1 < e1 < p2 < |s|
    requires s[0..p1] == a && s[p1 + 1..e1] == b && s[e1 + 1..p2] == c && s[p2 + 1..|s|] == d
    requires DecimalToken(s, 0, p1, e1) && DecimalToken(s, e1, p2, |s|)
    ensures Numbers(s) == [DecimalValue(a, b), -DecimalValue(c, d)]
  {
    DecimalMatch(s, 0, p1, e1);
    DecimalMatch(s, e1, p2, |s|);
    NumbersTwoTokens(s, e1);
    UnsignedDecimalOf(s, 0, p1, e1, a, b);
    NegativeDecimalOf(s, e1, p2, |s|, c, d);
  }

  /** An unsigned decimal token reads as the decimal of its two digit runs. */
  lemma UnsignedDecimalOf(s: string, i: nat, dot: nat, e: nat, a: string, b: string)
    requires DecimalToken(s, i, dot, e) && !IsSign(s[i])
    requires AllDigits(a) && AllDigits(b) && s[i..dot] == a && s[dot + 1..e] == b
    ensures TokenValue(s, i, e) == DecimalValue(a, b)
  {
    UnsignedDecimalValue(s, i, dot, e);
    DigitsValueOf(s, i, dot, a);
    DigitsValueOf(s, dot + 1, e, b);
    assert Pow10(e - dot - 1) == Pow10(|b|);
  }

  /** A decimal token after a dash reads as the negated decimal of its two digit runs. */
  lemma NegativeDecimalOf(s: string, i: nat, dot: nat, e: nat, c: string, d: string)
    requires DecimalToken(s, i, dot, e) && s[i] == '-'
    requires AllDigits(c) && AllDigits(d) && s[i + 1..dot] == c && s[dot + 1..e] == d
    ensures TokenValue(s, i, e) == -DecimalValue(c, d)
  {
    NegativeDecimalValue(s, i, dot, e);
    DigitsValueOf(s, i + 1, dot, c);
    DigitsValueOf(s, dot + 1, e, d);
    assert Pow10(e - dot - 1) == Pow10(|d|);
  }

  lemma LabelShape(a: string, b: string, c: string, d: string)
    requires AllDigits(a) && AllDigits(b) && AllDigits(c) && AllDigits(d)
    requires |b| > 0 && |d| > 0
    ensures var s := a + "." + b + "-" + c + "." + d;
            var p1 := |a|;
            var e1 := p1 + 1 + |b|;
            var p2 := e1 + 1 + |c|;
            |s| == p2 + 1 + |d| && s[e1] == '-' && !IsSign(s[0])
            && s[0..p1] == a && s[p1 + 1..e1] == b && s[e1 + 1..p2] == c && s[p2 + 1..|s|] == d
            && DecimalToken(s, 0, p1, e1) && DecimalToken(s, e1, p2, |s|)
  {
    var s := a + "." + b + "-" + c + "." + d;
    var p1 := |a|;
    var e1 := p1 + 1 + |b|;
    var p2 := e1 + 1 + |c|;
    LabelLayout(a, b, c, d);
    assert s[0..p1] == a && s[p1 + 1..e1] == b && s[e1 + 1..p2] == c && s[p2 + 1..|s|] == d;
    assert s[0] == (if p1 > 0 then a[0] else '.');
  }

  /** Where each piece of the label `a.b-c.d` sits. */
  lemma LabelLayout(a: string, b: string, c: string, d: string)
    ensures var s := a + "." + b + "-" + c + "." + d;
            var p1 := |a|;
            var e1 := p1 + 1 + |b|;
            var p2 := e1 + 1 + |c|;
            && |s| == p2 + 1 + |d|
            && (forall k :: 0 <= k < p1 ==> s[k] == a[k])
            && (forall k :: p1 + 1 <= k < e1 ==> s[k] == b[k - p1 - 1])
            && (forall k :: e1 + 1 <= k < p2 ==> s[k] == c[k - e1 - 1])
            && (forall k :: p2 + 1 <= k < |s| ==> s[k] == d[k - p2 - 1])
            && s[p1] == '.' && s[e1] == '-' && s[p2] == '.'
  {
  }

  /** A label "a-c" of whole numbers yields a and +c: `\d+` does not take the dash, so
      the second number comes out positive. */
  lemma IntegerLabel(a: string, c: string)
    requires AllDigits(a) && AllDigits(c) && |a| > 0 && |c| > 0
    ensures Numbers(a + "-" + c) == [DigitsValue(a, 0, |a|) as real, DigitsValue(c, 0, |c|) as real]
  {
    var s := a + "-" + c;
    var e1 := |a|;
    IntegerShape(a, c);
    IntegerMatch(s, 0, e1);
    IntegerMatch(s, e1 + 1, |s|);
    DigitsValueOf(s, 0, e1, a);
    DigitsValueOf(s, e1 + 1, |s|, c);
    // the dash starts no match: it is neither a digit nor followed by a decimal
    DigitRunEnds(s, e1 + 1, |s|);
    assert MatchAt(s, e1) == None;
    NumbersStep(s, 0, e1);
    assert NumbersFrom(s, e1) == NumbersFrom(s, e1 + 1);
    NumbersStep(s, e1 + 1, |s|);
  }

  lemma IntegerShape(a: string, c: string)
    requires AllDigits(a) && AllDigits(c) && |a| > 0 && |c| > 0
    ensures var s := a + "-" + c;
            var e1 := |a|;
            |s| == e1 + 1 + |c| && s[e1] == '-' && s[0..e1] == a && s[e1 + 1..|s|] == c
            && IntegerToken(s, 0, e1) && IntegerToken(s, e1 + 1, |s|)
  {
    var s := a + "-" + c;
    var e1 := |a|;
    assert forall k :: 0 <= k < e1 ==> s[k] == a[k];
    assert forall k :: e1 + 1 <= k < |s| ==> s[k] == c[k - e1 - 1];
    assert s[e1] == '-';
  }

  /** Every label that the bound loop of `_apply` reads has the numbers it needs: the
      first number of each of the first `sectors` labels, and a second number in the
      last of them. */
  ghost predicate BoundsReadable(labels: seq<string>, sectors: nat) {
    sectors <= |labels|
    && (forall i :: 0 <= i < sectors ==> |Numbers(labels[i])| >= 1)
    && (sectors > 0 ==> |Numbers(labels[sectors - 1])| >= 2)
  }

  /** Bound `i` is the first number of label `i`; the closing bound is the second number
      of the last label, negated. A label that is missing or lacks a number raises
      `IndexError`. */
  function SectorBounds(labels: seq<string>, sectors: nat): (r: Result<seq<real>, PyError>)
    ensures r.Ok? <==> BoundsReadable(labels, sectors)
    ensures r.Err? ==> r.error == IndexError
    ensures r.Ok? ==> |r.value| == (if sectors == 0 then 0 else sectors + 1)
    ensures r.Ok? ==> forall i :: 0 <= i < sectors ==> r.value[i] == Numbers(labels[i])[0]
    ensures r.Ok? && sectors > 0 ==> r.value[sectors] == -Numbers(labels[sectors - 1])[1]
  {
    if sectors > |labels| then Err(IndexError)
    else if exists i :: 0 <= i < sectors && |Numbers(labels[i])| == 0 then Err(IndexError)
    else if sectors > 0 && |Numbers(labels[sectors - 1])| < 2 then Err(IndexError)
    else
      Ok(if sectors == 0 then [] else Firsts(labels, sectors) + [-Numbers(labels[sectors - 1])[1]])
  }

  function Firsts(labels: seq<string>, n: nat): (r: seq<real>)
    requires n <= |labels| && forall i :: 0 <= i < n ==> |Numbers(labels[i])| >= 1
    ensures |r| == n && forall i :: 0 <= i < n ==> r[i] == Numbers(labels[i])[0]
  {
    seq(n, i requires 0 <= i < n => Numbers(labels[i])[0])
  }

  /** The bound loop of the `BySector` branch of `_apply`. */
  method ReadSectorBounds(labels: seq<string>, sectors: nat) returns (r: Result<seq<real>, PyError>)
    ensures r == SectorBounds(labels, sectors)
  {
    var bounds: seq<real> := [];
    for i := 0 to sectors
      invariant i <= |labels|
      invariant forall k :: 0 <= k < i ==> |Numbers(labels[k])| >= 1
      invariant i < sectors ==> bounds == Firsts(labels, i)
      invariant i == sectors > 0 ==>
        |Numbers(labels[i - 1])| >= 2 && bounds == Firsts(labels, i) + [-Numbers(labels[i - 1])[1]]
      invariant sectors == 0 ==> bounds == []
    {
      if i >= |labels| {
        return Err(IndexError);
      }
      var numbers := Numbers(labels[i]);
      if |numbers| == 0 {
        return Err(IndexError);
      }
      bounds := bounds + [numbers[0]];
      assert bounds == Firsts(labels, i + 1);
      if i == sectors - 1 {
        if |numbers| < 2 {
          return Err(IndexError);
        }
        bounds := bounds + [-numbers[1]];
      }
    }
    return Ok(bounds);
  }

  /** For labels written "a.b-c.d", the bounds are the first decimals of the labels and
      the second decimal of the last label, positive again after its dash is negated. */
  lemma DecimalLabelBounds(labels: seq<string>, parts: seq<(string, string, string, string)>)
    requires |labels| == |parts| > 0
    requires forall i :: 0 <= i < |parts| ==>
      AllDigits(parts[i].0) && AllDigits(parts[i].1) && AllDigits(parts[i].2) && AllDigits(parts[i].3)
      && |parts[i].1| > 0 && |parts[i].3| > 0
      && labels[i] == parts[i].0 + "." + parts[i].1 + "-" + parts[i].2 + "." + parts[i].3
    ensures SectorBounds(labels, |labels|).Ok?
    ensures forall i :: 0 <= i < |labels| ==>
      SectorBounds(labels, |labels|).value[i] == DecimalValue(parts[i].0, parts[i].1)
    ensures var n := |labels|;
      SectorBounds(labels, n).value[n] == DecimalValue(parts[n - 1].2, parts[n - 1].3)
  {
    forall i | 0 <= i < |labels|
      ensures Numbers(labels[i]) == [DecimalValue(parts[i].0, parts[i].1), -DecimalValue(parts[i].2, parts[i].3)]
    {
      DecimalLabel(parts[i].0, parts[i].1, parts[i].2, parts[i].3);
    }
  }
}
