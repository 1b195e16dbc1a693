/** The pieces of the C and C++ libraries that read numbers and comma-separated lists. */
module CText {
  import opened TimeEncoding

  predicate IsSpace(c: char) {
    c == ' ' || c == '\t' || c == '\n' || c == '\r' || c == '\U{0B}' || c == '\U{0C}'
  }

  predicate IsDigit(c: char) { '0' <= c <= '9' }

  function DigitValue(c: char): nat
    requires IsDigit(c)
  {
    c as int - '0' as int
  }

  function SkipSpaces(s: string): string {
    if s != "" && IsSpace(s[0]) then SkipSpaces(s[1..]) else s
  }

  /** The value of the leading digits of `s`, read after the value `acc`. */
  function Digits(s: string, acc: nat): nat {
    if s != "" && IsDigit(s[0]) then Digits(s[1..], 10 * acc + DigitValue(s[0])) else acc
  }

  /** Values out of the range of long saturate, as strtol does. */
  function Saturate(n: int): Int64 {
    if n < -TWO_63 then -TWO_63 else if n >= TWO_63 then TWO_63 - 1 else n
  }

  /** An optional sign and digits; 0 where there are none. */
  function Number(s: string): Int64 {
    if s == "" then 0
    else if s[0] == '-' then Saturate(0 - Digits(s[1..], 0))
    else if s[0] == '+' then Saturate(Digits(s[1..], 0))
    else Saturate(Digits(s, 0))
  }

  /** atol: a number after leading white space. */
  function Atol(s: string): Int64 { Number(SkipSpaces(s)) }

  function DigitOf(d: nat): char
    requires d < 10
  {
    '0' + d as char
  }

  function RenderNat(n: nat): (s: string)
    ensures s != "" && forall i :: 0 <= i < |s| ==> IsDigit(s[i])
  {
    if n < 10 then [DigitOf(n)] else RenderNat(n / 10) + [DigitOf(n % 10)]
  }

  /** The decimal rendering of a long. */
  function Render(n: int): string {
    if n < 0 then "-" + RenderNat(-n) else RenderNat(n)
  }

  function Pow10(k: nat): nat {
    if k == 0 then 1 else 10 * Pow10(k - 1)
  }

  lemma {:induction false} RenderingLength(n: nat, k: nat)
    requires k > 0 && n < Pow10(k)
    ensures |RenderNat(n)| <= k
  {
    if n >= 10 {
      assert n / 10 < Pow10(k - 1);
      RenderingLength(n / 10, k - 1);
    }
  }

  lemma FourDigits(k: nat)
    ensures Pow10(k + 4) == 10_000 * Pow10(k)
  {
    assert Pow10(k + 4) == 10 * Pow10(k + 3) == 100 * Pow10(k + 2) == 1_000 * Pow10(k + 1);
  }

  /** A long has at most 19 digits and a sign. */
  lemma LongRenderingLength(n: Int64)
    ensures |Render(n)| <= 20
  {
    var m: int := n;
    assert Pow10(3) == 10 * Pow10(2) == 100 * Pow10(1) == 1_000;
    FourDigits(3);
    FourDigits(7);
    FourDigits(11);
    FourDigits(15);
    RenderingLength(if m < 0 then -m else m, 19);
  }

  predicate AllDigits(ds: string) {
    forall i :: 0 <= i < |ds| ==> IsDigit(ds[i])
  }

  /** The number a string of digits denotes, each digit ten times the next. */
  function Value(ds: string): nat
    requires AllDigits(ds)
  {
    if ds == "" then 0 else 10 * Value(ds[..|ds| - 1]) + DigitValue(ds[|ds| - 1])
  }

  lemma {:induction false} ValueOfRendering(n: nat)
    ensures Value(RenderNat(n)) == n
  {
    if n >= 10 {
      ValueOfRendering(n / 10);
      assert RenderNat(n)[..|RenderNat(n)| - 1] == RenderNat(n / 10);
    }
  }

  lemma {:induction false} ValueIsZero(ds: string)
    requires AllDigits(ds)
    ensures Value(ds) == 0 <==> forall i :: 0 <= i < |ds| ==> ds[i] == '0'
  {
    if ds != "" {
      var init, last := ds[..|ds| - 1], ds[|ds| - 1];
      ValueIsZero(init);
      assert forall i :: 0 <= i < |init| ==> ds[i] == init[i];
      assert DigitValue(last) == 0 <==> last == '0';
    }
  }

  lemma {:induction false} DigitsAreRead(ds: string, rest: string)
    requires AllDigits(ds)
    ensures Digits(ds + rest, 0) == Digits(rest, Value(ds))
  {
    if ds == "" {
      assert ds + rest == rest;
    } else {
      var init, last := ds[..|ds| - 1], [ds[|ds| - 1]];
      assert ds + rest == init + (last + rest) && (last + rest)[1..] == rest;
      DigitsAreRead(init, last + rest);
    }
  }

  /** `s` does not go on with a digit. */
  predicate NoDigitNext(s: string) {
    s != "" ==> !IsDigit(s[0])
  }

  lemma {:induction false} SpaceIsSkipped(space: string, t: string)
    requires forall c :: c in space ==> IsSpace(c)
    requires t != "" && !IsSpace(t[0])
    ensures SkipSpaces(space + t) == t
  {
    if space == "" {
      assert space + t == t;
    } else {
      assert IsSpace(space[0]) && (space + t)[1..] == space[1..] + t;
      SpaceIsSkipped(space[1..], t);
    }
  }

  /** `s` is white space, an optional sign, as many digits as there are, and a rest. */
  ghost predicate ReadsAs(s: string, space: string, sign: string, ds: string, rest: string) {
    && s == space + (sign + (ds + rest))
    && (forall c :: c in space ==> IsSpace(c))
    && (sign == "" || sign == "-" || sign == "+")
    && AllDigits(ds) && NoDigitNext(rest)
    && (sign + ds == "" && rest != "" ==> !IsSpace(rest[0]) && rest[0] != '-' && rest[0] != '+')
  }

  /** `r` is the long nearest to `v`. */
  predicate Nearest(r: Int64, v: int) {
    if v < -TWO_63 then r == -TWO_63 else if v >= TWO_63 then r == TWO_63 - 1 else r == v
  }

  /** What atol makes of any string: the number its digits denote, with its sign, or the nearest long;
      0 where no digits stand. */
  lemma AtolIsTheNumber(s: string, space: string, sign: string, ds: string, rest: string)
    requires ReadsAs(s, space, sign, ds, rest)
    ensures Nearest(Atol(s), if sign == "-" then 0 - Value(ds) else Value(ds))
  {
    var t := sign + (ds + rest);
    if t == "" {
      OnlySpaces(space);
      assert s == space;
    } else {
      FirstIsNoSpace(sign, ds, rest);
      SpaceIsSkipped(space, t);
      DigitsAreRead(ds, rest);
      SignIsRead(sign, ds, rest);
    }
  }

  lemma {:induction false} OnlySpaces(space: string)
    requires forall c :: c in space ==> IsSpace(c)
    ensures SkipSpaces(space) == ""
  {
    if space != "" {
      OnlySpaces(space[1..]);
    }
  }

  lemma FirstIsNoSpace(sign: string, ds: string, rest: string)
    requires ReadsAs(sign + (ds + rest), "", sign, ds, rest) && sign + (ds + rest) != ""
    ensures !IsSpace((sign + (ds + rest))[0])
  {
  }

  lemma SignIsRead(sign: string, ds: string, rest: string)
    requires ReadsAs(sign + (ds + rest), "", sign, ds, rest)
    requires Digits(ds + rest, 0) == Value(ds)
    ensures Nearest(Number(sign + (ds + rest)), if sign == "-" then 0 - Value(ds) else Value(ds))
  {
    var t := sign + (ds + rest);
    if sign != "" {
      assert t[1..] == ds + rest;
    } else {
      assert t == ds + rest;
    }
  }

  lemma {:induction false} LeadingDigits(s: string) returns (ds: string, rest: string)
    ensures s == ds + rest && AllDigits(ds) && NoDigitNext(rest)
  {
    if s == "" || !IsDigit(s[0]) {
      ds, rest := "", s;
    } else {
      ds, rest := LeadingDigits(s[1..]);
      ds := [s[0]] + ds;
    }
  }

  lemma {:induction false} LeadingSpace(s: string) returns (space: string, rest: string)
    ensures s == space + rest && (forall c :: c in space ==> IsSpace(c)) && (rest != "" ==> !IsSpace(rest[0]))
  {
    if s == "" || !IsSpace(s[0]) {
      space, rest := "", s;
    } else {
      space, rest := LeadingSpace(s[1..]);
      space := [s[0]] + space;
    }
  }

  /** Every string reads in one of these ways. */
  lemma EveryStringIsRead(s: string) returns (space: string, sign: string, ds: string, rest: string)
    ensures ReadsAs(s, space, sign, ds, rest)
  {
    var t;
    space, t := LeadingSpace(s);
    sign := if t != "" && (t[0] == '-' || t[0] == '+') then [t[0]] else "";
    ds, rest := LeadingDigits(t[|sign|..]);
    assert t == sign + (ds + rest);
  }

  /** A digit other than 0 stands among the digits that follow any white space and a sign. */
  ghost predicate NamesNumber(s: string) {
    exists space, sign, ds, rest, i :: ReadsAs(s, space, sign, ds, rest) && 0 <= i < |ds| && ds[i] != '0'
  }

  /** atol yields 0 exactly where no such digit stands. */
  lemma NamesNumberExactly(s: string)
    ensures Atol(s) != 0 <==> NamesNumber(s)
  {
    if NamesNumber(s) {
      var space, sign, ds, rest, i :| ReadsAs(s, space, sign, ds, rest) && 0 <= i < |ds| && ds[i] != '0';
      AtolIsTheNumber(s, space, sign, ds, rest);
      ValueIsZero(ds);
    } else {
      var space, sign, ds, rest := EveryStringIsRead(s);
      AtolIsTheNumber(s, space, sign, ds, rest);
      ValueIsZero(ds);
    }
  }

  /** However it is read, no number is named where the digits are zeros only, or missing. */
  lemma ZerosNameNoNumber(s: string, space: string, sign: string, ds: string, rest: string)
    requires ReadsAs(s, space, sign, ds, rest) && forall i :: 0 <= i < |ds| ==> ds[i] == '0'
    ensures !NamesNumber(s)
  {
    AtolIsTheNumber(s, space, sign, ds, rest);
    ValueIsZero(ds);
    NamesNumberExactly(s);
  }

  /** A rendered number is read back, or the nearest long, whatever white space precedes it and whatever
      but a digit follows. */
  lemma AtolOfRendering(space: string, n: int, rest: string)
    requires (forall c :: c in space ==> IsSpace(c)) && NoDigitNext(rest)
    ensures Nearest(Atol(space + (Render(n) + rest)), n)
    ensures Atol(space + (Render(n) + rest)) == n <==> -TWO_63 <= n < TWO_63
  {
    var sign, ds := if n < 0 then "-" else "", RenderNat(if n < 0 then -n else n);
    assert Render(n) + rest == sign + (ds + rest);
    ValueOfRendering(if n < 0 then -n else n);
    AtolIsTheNumber(space + (Render(n) + rest), space, sign, ds, rest);
  }

  /** Nothing after a NUL byte is read. */
  lemma {:induction false} DigitsStopAtNul(s: string, rest: string, acc: nat)
    ensures Digits(s + "\0" + rest, acc) == Digits(s, acc)
  {
    var t := s + "\0" + rest;
    if s != "" && IsDigit(s[0]) {
      assert t[1..] == s[1..] + "\0" + rest;
      DigitsStopAtNul(s[1..], rest, 10 * acc + DigitValue(s[0]));
    }
  }

  lemma {:induction false} SkipSpacesStopsAtNul(s: string, rest: string)
    ensures SkipSpaces(s + "\0" + rest) == SkipSpaces(s) + "\0" + rest
  {
    var t := s + "\0" + rest;
    if s != "" && IsSpace(s[0]) {
      assert t[1..] == s[1..] + "\0" + rest;
      SkipSpacesStopsAtNul(s[1..], rest);
    }
  }

  lemma AtolStopsAtNul(s: string, rest: string)
    ensures Atol(s + "\0" + rest) == Atol(s)
  {
    SkipSpacesStopsAtNul(s, rest);
    var t := SkipSpaces(s);
    DigitsStopAtNul(t, rest, 0);
    if t != "" {
      assert (t + "\0" + rest)[1..] == t[1..] + "\0" + rest;
      DigitsStopAtNul(t[1..], rest, 0);
    }
  }

  // ---------- comma-separated lists ----------

  /** The length of the token at the head of `s`. */
  function TokenLength(s: string): (n: nat)
    ensures n <= |s| && ',' !in s[..n] && (n < |s| ==> s[n] == ',')
  {
    if s == "" || s[0] == ',' then 0
    else
      var n := 1 + TokenLength(s[1..]);
      assert s[..n] == [s[0]] + s[1..][..n - 1];
      n
  }

  /** The tokens std::getline yields: a separator at the very end starts no further token. */
  function Tokens(s: string): seq<string> {
    if s == "" then []
    else
      var n := TokenLength(s);
      [s[..n]] + if n < |s| then Tokens(s[n + 1..]) else []
  }

  function Join(ts: seq<string>): string {
    if ts == [] then ""
    else if |ts| == 1 then ts[0]
    else ts[0] + "," + Join(ts[1..])
  }

  lemma TokenLengthUnique(s: string, n: nat)
    requires n <= |s| && ',' !in s[..n] && (n < |s| ==> s[n] == ',')
    ensures TokenLength(s) == n
  {
  }

  lemma FirstTokenAt(s: string, n: nat)
    requires s != "" && n <= |s| && ',' !in s[..n] && (n < |s| ==> s[n] == ',')
    ensures Tokens(s) == [s[..n]] + if n < |s| then Tokens(s[n + 1..]) else []
  {
    TokenLengthUnique(s, n);
  }

  /** A list that is joined and split again comes back, if no token holds a separator and the last is
      not empty. */
  lemma {:induction false} TokensOfJoin(ts: seq<string>)
    requires forall t :: t in ts ==> ',' !in t
    requires ts != [] ==> ts[|ts| - 1] != ""
    ensures Tokens(Join(ts)) == ts
    ensures ts != [] ==> Join(ts) != ""
  {
    if |ts| == 1 {
      assert ts[0][..|ts[0]|] == ts[0];
      TokenLengthUnique(ts[0], |ts[0]|);
    } else if |ts| > 1 {
      var s, n := Join(ts), |ts[0]|;
      assert s[..n] == ts[0] && s[n] == ',' && s[n + 1..] == Join(ts[1..]);
      TokenLengthUnique(s, n);
      TokensOfJoin(ts[1..]);
    }
  }

  /** The separator that splitting drops. */
  function Dropped(s: string): string {
    if s != "" && s[|s| - 1] == ',' then "," else ""
  }

  /** Splitting loses nothing but one separator at the end. */
  lemma {:induction false} JoinOfTokens(s: string)
    ensures s == Join(Tokens(s)) + Dropped(s)
    ensures s != "" ==> Tokens(s) != []
  {
    if s != "" {
      var n := TokenLength(s);
      if n == |s| {
        assert s[..n] == s;
        assert s[|s| - 1] in s[..n];
      } else {
        JoinOfTokens(s[n + 1..]);
        JoinFirst(s[..n], s[n + 1..], s);
      }
    }
  }

  lemma JoinFirst(first: string, rest: string, s: string)
    requires s == first + "," + rest
    requires rest == Join(Tokens(rest)) + Dropped(rest) && (rest != "" ==> Tokens(rest) != [])
    ensures s == Join([first] + Tokens(rest)) + Dropped(s)
  {
    if rest != "" {
      assert ([first] + Tokens(rest))[1..] == Tokens(rest);
      assert s[|s| - 1] == rest[|rest| - 1];
    } else {
      assert Join([first]) == first;
    }
  }
}
