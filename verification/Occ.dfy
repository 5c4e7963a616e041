/**
 * OCC option symbols (src/instruments/contract.cpp): printing a contract into
 * 21 characters, parsing it back, and exactly when each direction undoes the
 * other.
 */
module Occ {
  import opened Types
  import opened Chains

  /** The fields of a contract that its symbol carries. */
  datatype Contract = Contract(underlying: string, strike: Price, expiry: ExpiryDate, kind: OptionType)

  const ROOT_SIZE := 6
  const SYMBOL_SIZE := 21

  // ---- Decimal numbers ----------------------------------------------------------------

  predicate IsDigit(c: char) {
    '0' <= c <= '9'
  }

  predicate AllDigits(s: string) {
    forall i | 0 <= i < |s| :: IsDigit(s[i])
  }

  function Digit(d: nat): (c: char)
    requires d < 10
    ensures IsDigit(c) && Value(c) == d
  {
    ('0' as int + d) as char
  }

  function Value(c: char): (d: nat)
    requires IsDigit(c)
    ensures d < 10
  {
    c as int - '0' as int
  }

  lemma {:induction false} DigitOfValue(c: char)
    requires IsDigit(c)
    ensures Digit(Value(c)) == c
  {
  }

  function Pow10(w: nat): (p: nat)
    ensures p > 0
  {
    if w == 0 then 1 else 10 * Pow10(w - 1)
  }

  function Number(s: string): (n: nat)
    requires AllDigits(s)
    ensures n < Pow10(|s|)
  {
    if s == [] then 0 else Number(s[..|s| - 1]) * 10 + Value(s[|s| - 1])
  }

  /** Exactly w digits, leading zeros included. */
  function Fixed(w: nat, n: nat): (s: string)
    ensures |s| == w && AllDigits(s)
  {
    if w == 0 then [] else Fixed(w - 1, n / 10) + [Digit(n % 10)]
  }

  lemma {:induction false} NumberOfFixed(w: nat, n: nat)
    requires n < Pow10(w)
    ensures Number(Fixed(w, n)) == n
  {
    if w > 0 {
      NumberOfFixed(w - 1, n / 10);
      assert Fixed(w, n)[..w - 1] == Fixed(w - 1, n / 10);
    }
  }

  lemma {:induction false} FixedOfNumber(s: string)
    requires AllDigits(s)
    ensures Fixed(|s|, Number(s)) == s
  {
    if s != [] {
      var front, last := s[..|s| - 1], s[|s| - 1];
      FixedOfNumber(front);
      DigitOfValue(last);
      assert s == front + [last];
    }
  }

  /** Shortest decimal form. */
  function Decimal(n: nat): (s: string)
    ensures |s| > 0 && AllDigits(s)
  {
    if n < 10 then [Digit(n)] else Decimal(n / 10) + [Digit(n % 10)]
  }

  function Zeros(k: int): (s: string)
    ensures |s| == if k < 0 then 0 else k
  {
    if k <= 0 then [] else ['0'] + Zeros(k - 1)
  }

  /** printf with %0<w>d: at least w characters, a minus sign in front counted. */
  function Padded(w: nat, v: int): (s: string)
    ensures |s| >= w
  {
    if v >= 0 then Zeros(w - |Decimal(v)|) + Decimal(v)
    else ['-'] + Zeros(w - 1 - |Decimal(-v)|) + Decimal(-v)
  }

  lemma {:induction false} FixedZero(w: nat)
    ensures Fixed(w, 0) == Zeros(w)
  {
    if w > 0 {
      FixedZero(w - 1);
      ZerosCommute(w);
    }
  }

  lemma {:induction false} ZerosCommute(w: nat)
    requires w > 0
    ensures Zeros(w - 1) + ['0'] == Zeros(w)
  {
    if w > 1 {
      ZerosCommute(w - 1);
      assert Zeros(w - 1) + ['0'] == ['0'] + (Zeros(w - 2) + ['0']);
    }
  }

  /** A number that fits is printed at exactly the width asked for. */
  lemma {:induction false} PaddedFits(w: nat, n: nat)
    requires w > 0 && n < Pow10(w)
    ensures Padded(w, n) == Fixed(w, n) && |Decimal(n)| <= w
  {
    if n < 10 {
      FixedZero(w - 1);
      assert n / 10 == 0 && n % 10 == n;
    } else {
      PaddedFits(w - 1, n / 10);
      var z := Zeros(w - |Decimal(n)|);
      assert z + Decimal(n) == (z + Decimal(n / 10)) + [Digit(n % 10)];
    }
  }

  // ---- The root -----------------------------------------------------------------------

  function Spaces(k: nat): (s: string)
    ensures |s| == k && forall i | 0 <= i < k :: s[i] == ' '
  {
    if k == 0 then [] else Spaces(k - 1) + [' ']
  }

  /** Left-justified in six characters: cut off or filled up with spaces. */
  function RootField(underlying: string): (s: string)
    ensures |s| == ROOT_SIZE
  {
    if |underlying| >= ROOT_SIZE then underlying[..ROOT_SIZE] else underlying + Spaces(ROOT_SIZE - |underlying|)
  }

  predicate EndsInSpace(s: string) {
    s != [] && s[|s| - 1] == ' '
  }

  function Trim(s: string): (r: string)
    ensures r <= s && !EndsInSpace(r)
    ensures forall i | |r| <= i < |s| :: s[i] == ' '
  {
    if EndsInSpace(s) then Trim(s[..|s| - 1]) else s
  }

  lemma {:induction false} LongerEndsInSpace(s: string, t: string, r: string)
    ensures t <= s && r <= s && |t| < |r| && (forall i | |t| <= i < |s| :: s[i] == ' ') ==> EndsInSpace(r)
  {
  }

  /** Trimming is pinned down by what it keeps and what it drops. */
  lemma {:induction false} TrimIsUnique(s: string, r: string)
    requires r <= s && !EndsInSpace(r) && forall i | |r| <= i < |s| :: s[i] == ' '
    ensures Trim(s) == r
  {
    LongerEndsInSpace(s, Trim(s), r);
    LongerEndsInSpace(s, r, Trim(s));
  }

  // ---- Printing and parsing -------------------------------------------------------------

  /** The strike in thousandths is an int64 product; beyond that the source is undefined. */
  predicate TicksFit(strike: Price) {
    -TWO_TO_63 <= strike * 10 < TWO_TO_63
  }

  function DateField(e: ExpiryDate): (s: string)
    ensures |s| == 6
  {
    (Padded(2, e.year % 100) + Padded(2, e.month) + Padded(2, e.day))[..6]
  }

  function StrikeField(strike: Price): (s: string)
    ensures |s| == 8
  {
    Padded(8, strike * 10)[..8]
  }

  function KindField(kind: OptionType): char {
    if kind == Call then 'C' else 'P'
  }

  /** The 21-character symbol. */
  function SymbolOf(c: Contract): (s: string)
    ensures |s| == SYMBOL_SIZE
    ensures s[..6] == RootField(c.underlying) && s[6..12] == DateField(c.expiry)
    ensures s[12] == KindField(c.kind) && s[13..] == StrikeField(c.strike)
  {
    RootField(c.underlying) + DateField(c.expiry) + [KindField(c.kind)] + StrikeField(c.strike)
  }

  datatype SymbolError = TooShort | NonDigit | NotCallOrPut

  datatype Parsed = Ok(contract: Contract) | Err(error: SymbolError)

  /** The checks in the order from_occ makes them; anything behind 21 characters is ignored. */
  function ParseSymbol(occ: string): Parsed {
    if |occ| < SYMBOL_SIZE then Err(TooShort)
    else if !AllDigits(occ[6..12]) then Err(NonDigit)
    else if occ[12] != 'C' && occ[12] != 'P' then Err(NotCallOrPut)
    else if !AllDigits(occ[13..21]) then Err(NonDigit)
    else
      Ok(Contract(Trim(occ[..6]), StrikeNumber(occ[13..21]) / 10, DateNumbers(occ[6..12]),
                  if occ[12] == 'C' then Call else Put))
  }

  function StrikeNumber(s: string): (n: U32)
    requires |s| == 8 && AllDigits(s)
    ensures n == Number(s) <= 99_999_999
  {
    assert Pow10(8) == 100_000_000;
    Number(s)
  }

  function DateNumbers(s: string): (e: ExpiryDate)
    requires |s| == 6 && AllDigits(s)
    ensures 2000 <= e.year <= 2099 && e.month <= 99 && e.day <= 99
    ensures e.year - 2000 == Number(s[..2]) && e.month == Number(s[2..4]) && e.day == Number(s[4..])
  {
    assert Pow10(2) == 100;
    ExpiryDate(2000 + Number(s[..2]), Number(s[2..4]), Number(s[4..]))
  }

  // ---- Both directions ---------------------------------------------------------------------

  /** What a symbol can carry. */
  predicate Representable(c: Contract) {
    && |c.underlying| <= ROOT_SIZE && !EndsInSpace(c.underlying)
    && 2000 <= c.expiry.year <= 2099 && c.expiry.month <= 99 && c.expiry.day <= 99
    && 0 <= c.strike * 10 <= 99_999_999
  }

  /** Whatever parses is representable. */
  lemma {:induction false} ParsedIsRepresentable(occ: string)
    ensures ParseSymbol(occ).Ok? ==> Representable(ParseSymbol(occ).contract)
  {
    hide Number, AllDigits;
  }

  lemma {:induction false} TwoDigits(n: nat)
    requires n <= 99
    ensures Padded(2, n) == Fixed(2, n) && Number(Fixed(2, n)) == n
  {
    assert Pow10(2) == 100;
    PaddedFits(2, n);
    NumberOfFixed(2, n);
  }

  lemma {:induction false} TwoDigitsBack(s: string)
    requires |s| == 2 && AllDigits(s)
    ensures Number(s) <= 99 && Padded(2, Number(s)) == s
  {
    assert Pow10(2) == 100;
    PaddedFits(2, Number(s));
    FixedOfNumber(s);
  }

  lemma {:induction false} DateRoundTrip(e: ExpiryDate)
    requires 2000 <= e.year <= 2099 && e.month <= 99 && e.day <= 99
    ensures AllDigits(DateField(e)) && DateNumbers(DateField(e)) == e
  {
    hide Number, Fixed, Padded, Decimal, Zeros, Pow10;
    TwoDigits(e.year % 100);
    TwoDigits(e.month);
    TwoDigits(e.day);
    var s := DateField(e);
    assert s == Fixed(2, e.year % 100) + Fixed(2, e.month) + Fixed(2, e.day);
    assert s[..2] == Fixed(2, e.year % 100) && s[2..4] == Fixed(2, e.month) && s[4..] == Fixed(2, e.day);
  }

  lemma {:induction false} StrikeRoundTrip(strike: Price)
    requires 0 <= strike * 10 <= 99_999_999
    ensures AllDigits(StrikeField(strike)) && StrikeNumber(StrikeField(strike)) / 10 == strike
  {
    assert Pow10(8) == 100_000_000;
    PaddedFits(8, strike * 10);
    NumberOfFixed(8, strike * 10);
    hide Number, Fixed, Padded, Decimal, Zeros, Pow10;
    assert StrikeField(strike) == Fixed(8, strike * 10);
  }

  /** Printing and parsing restores a contract if and only if its symbol can carry it. */
  lemma {:induction false} RoundTripIff(c: Contract)
    ensures ParseSymbol(SymbolOf(c)) == Ok(c) <==> Representable(c)
  {
    hide Number, Fixed, Padded, Decimal, Zeros, Pow10, DateField, StrikeField, SymbolOf;
    var s := SymbolOf(c);
    ParsedIsRepresentable(s);
    if Representable(c) {
      DateRoundTrip(c.expiry);
      StrikeRoundTrip(c.strike);
      TrimIsUnique(s[..6], c.underlying);
      assert s[13..21] == s[13..];
    }
  }

  lemma {:induction false} DateFieldOfNumbers(s: string)
    requires |s| == 6 && AllDigits(s)
    ensures DateField(DateNumbers(s)) == s
  {
    hide Number, Fixed, Padded, Decimal, Zeros, Pow10;
    TwoDigitsBack(s[..2]);
    TwoDigitsBack(s[2..4]);
    TwoDigitsBack(s[4..]);
    assert s == s[..2] + s[2..4] + s[4..];
  }

  /** A strike prints back unchanged exactly when no thousandth was dropped. */
  lemma {:induction false} StrikeFieldIff(s: string)
    requires |s| == 8 && AllDigits(s)
    ensures StrikeField(StrikeNumber(s) / 10) == s <==> s[7] == '0'
  {
    var n := StrikeNumber(s);
    assert Pow10(8) == 100_000_000;
    PaddedFits(8, n / 10 * 10);
    NumberOfFixed(8, n / 10 * 10);
    FixedOfNumber(s);
    assert n % 10 == Value(s[7]);
    hide Number, Fixed, Padded, Decimal, Zeros, Pow10;
    assert StrikeField(n / 10) == Fixed(8, n / 10 * 10);
    assert s[7] == '0' <==> n / 10 * 10 == n;
  }

  lemma {:induction false} RootOfTrimmed(s: string)
    requires |s| == ROOT_SIZE
    ensures RootField(Trim(s)) == s
  {
  }

  /** Parsing and printing restores an accepted symbol if and only if it is 21 long and ends in 0. */
  lemma {:induction false} SymbolRoundTripIff(occ: string)
    requires ParseSymbol(occ).Ok?
    ensures SymbolOf(ParseSymbol(occ).contract) == occ <==> |occ| == SYMBOL_SIZE && occ[20] == '0'
  {
    hide Number, Fixed, Padded, Decimal, Zeros, Pow10, DateField, StrikeField, SymbolOf, RootField, AllDigits;
    RootOfTrimmed(occ[..6]);
    DateFieldOfNumbers(occ[6..12]);
    StrikeFieldIff(occ[13..21]);
    var s := SymbolOf(ParseSymbol(occ).contract);
    assert s == s[..6] + s[6..12] + [s[12]] + s[13..];
    assert |occ| == SYMBOL_SIZE ==> occ == occ[..6] + occ[6..12] + [occ[12]] + occ[13..21];
    assert s[13..] == StrikeField(StrikeNumber(occ[13..21]) / 10);
  }

  /** Where each part of a contract stands in its symbol. */
  lemma {:induction false} SymbolLayout(c: Contract)
    requires Representable(c)
    ensures var s := SymbolOf(c);
      && |s| == 21
      && s[..|c.underlying|] == c.underlying && (forall i | |c.underlying| <= i < 6 :: s[i] == ' ')
      && AllDigits(s[6..8]) && 2000 + Number(s[6..8]) == c.expiry.year
      && AllDigits(s[8..10]) && Number(s[8..10]) == c.expiry.month
      && AllDigits(s[10..12]) && Number(s[10..12]) == c.expiry.day
      && (s[12] == 'C' <==> c.kind == Call) && (s[12] == 'P' <==> c.kind == Put)
      && AllDigits(s[13..21]) && Number(s[13..21]) == c.strike * 10
  {
    hide Number, Fixed, Padded, Decimal, Zeros, Pow10, DateField, StrikeField, SymbolOf;
    var s := SymbolOf(c);
    DateRoundTrip(c.expiry);
    StrikeDigits(c.strike);
    DateDigits(s);
    assert s[13..21] == s[13..];
    assert s[..|c.underlying|] == s[..6][..|c.underlying|];
    assert forall i | 0 <= i < 6 :: s[i] == s[..6][i];
  }

  lemma {:induction false} StrikeDigits(strike: Price)
    requires 0 <= strike * 10 <= 99_999_999
    ensures AllDigits(StrikeField(strike)) && Number(StrikeField(strike)) == strike * 10
  {
    assert Pow10(8) == 100_000_000;
    PaddedFits(8, strike * 10);
    NumberOfFixed(8, strike * 10);
    hide Number, Fixed, Padded, Decimal, Zeros, Pow10;
    assert StrikeField(strike) == Fixed(8, strike * 10);
  }

  /** A negative strike prints with a minus sign, which the parser refuses. */
  lemma {:induction false} NegativeStrikeIsRefused(c: Contract)
    requires c.strike < 0
    ensures SymbolOf(c)[13] == '-' && ParseSymbol(SymbolOf(c)).Err?
  {
    var s := SymbolOf(c);
    assert s[13] == s[13..][0] == StrikeField(c.strike)[0];
    assert !IsDigit(s[13..21][0]);
  }

  /** So different contracts that fit have different symbols. */
  lemma {:induction false} SymbolsIdentify(c: Contract, d: Contract)
    requires Representable(c) && Representable(d) && SymbolOf(c) == SymbolOf(d)
    ensures c == d
  {
    RoundTripIff(c);
    RoundTripIff(d);
    hide ParseSymbol, SymbolOf, Representable;
  }

  // ---- The two functions as written ----------------------------------------------------------

  /** occ_symbol. */
  method PrintSymbol(c: Contract) returns (result: string)
    requires TicksFit(c.strike)
    ensures result == SymbolOf(c)
  {
    hide Padded;
    var root := new char[ROOT_SIZE](_ => ' ');
    var i := 0;
    while i < |c.underlying| && i < ROOT_SIZE
      invariant 0 <= i <= |c.underlying| && i <= ROOT_SIZE
      invariant forall j | 0 <= j < ROOT_SIZE :: root[j] == if j < i then c.underlying[j] else ' '
    {
      root[i] := c.underlying[i];
      i := i + 1;
    }
    assert root[..] == RootField(c.underlying);
    var date := Padded(2, c.expiry.year % 100) + Padded(2, c.expiry.month) + Padded(2, c.expiry.day);
    var cp := if c.kind == Call then 'C' else 'P';
    var thousandths: I64 := c.strike * 10;
    result := root[..] + date[..6] + [cp] + Padded(8, thousandths)[..8];
  }

  /** The digits read one by one; None stands for the exception at the first that is no digit. */
  method ParseInt(s: string) returns (r: Option<nat>)
    ensures r == if AllDigits(s) then Some(Number(s)) else None
  {
    var v := 0;
    for i := 0 to |s|
      invariant AllDigits(s[..i]) && v == Number(s[..i])
    {
      if !IsDigit(s[i]) {
        return None;
      }
      assert s[..i + 1][..i] == s[..i];
      v := v * 10 + Value(s[i]);
    }
    assert s[..|s|] == s;
    return Some(v);
  }

  /** from_occ. */
  method FromOcc(occ: string) returns (r: Parsed)
    ensures r == ParseSymbol(occ)
  {
    hide Number, Trim;
    if |occ| < SYMBOL_SIZE {
      return Err(TooShort);
    }
    var underlying := TrimRoot(occ[..6]);
    DateDigits(occ);
    var yy := ParseInt(occ[6..8]);
    if yy.None? {
      return Err(NonDigit);
    }
    var mm := ParseInt(occ[8..10]);
    if mm.None? {
      return Err(NonDigit);
    }
    var dd := ParseInt(occ[10..12]);
    if dd.None? {
      return Err(NonDigit);
    }
    var expiry := ExpiryDate(2000 + yy.value, mm.value, dd.value);
    var cp := occ[12];
    if cp != 'C' && cp != 'P' {
      return Err(NotCallOrPut);
    }
    var thousandths := ParseInt(occ[13..21]);
    if thousandths.None? {
      return Err(NonDigit);
    }
    return Ok(Contract(underlying, thousandths.value / 10, expiry, if cp == 'C' then Call else Put));
  }

  lemma {:induction false} DateDigits(occ: string)
    requires |occ| >= SYMBOL_SIZE
    ensures AllDigits(occ[6..12]) <==> AllDigits(occ[6..8]) && AllDigits(occ[8..10]) && AllDigits(occ[10..12])
    ensures AllDigits(occ[6..12]) ==>
      && DateNumbers(occ[6..12]).year - 2000 == Number(occ[6..8])
      && DateNumbers(occ[6..12]).month == Number(occ[8..10])
      && DateNumbers(occ[6..12]).day == Number(occ[10..12])
    ensures AllDigits(occ[13..21]) ==> Number(occ[13..21]) <= 99_999_999
  {
    var date := occ[6..12];
    assert date[..2] == occ[6..8] && date[2..4] == occ[8..10] && date[4..] == occ[10..12];
    assert date == date[..2] + date[2..4] + date[4..];
    if AllDigits(occ[13..21]) {
      assert StrikeNumber(occ[13..21]) == Number(occ[13..21]);
    }
  }

  method TrimRoot(s: string) returns (r: string)
    ensures r == Trim(s)
  {
    r := s;
    while r != [] && r[|r| - 1] == ' '
      invariant Trim(r) == Trim(s)
    {
      r := r[..|r| - 1];
    }
  }
}
