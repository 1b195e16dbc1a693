/** The locale parser: language[_territory][.codeset][@modifier], XBD section 8.2 of POSIX.1-2017,
    cut up in place from right to left. */
module Locale {
  import opened Options

  /** The parts of a locale name; an absent part is not an empty one. */
  datatype Parts = Parts(language: string, territory: Option<string>, codeset: Option<string>, modifier: Option<string>)

  // ---------- the parser as a function on strings ----------

  function LastIndex(s: string, c: char): (i: int)
    ensures -1 <= i < |s|
    ensures i >= 0 ==> s[i] == c
    ensures forall k :: i < k < |s| ==> s[k] != c
  {
    if s == "" then -1
    else if s[|s| - 1] == c then |s| - 1
    else LastIndex(s[..|s| - 1], c)
  }

  /** What precedes and what follows the last `c`. */
  function SplitLast(s: string, c: char): (string, Option<string>) {
    var i := LastIndex(s, c);
    if i < 0 then (s, None) else (s[..i], Some(s[i + 1..]))
  }

  function ParseLocale(s: string): Parts {
    var (body, modifier) := SplitLast(s, '@');
    var (head, codeset) := SplitLast(body, '.');
    var (language, territory) := SplitLast(head, '_');
    Parts(language, territory, codeset, modifier)
  }

  function WithSuffix(s: string, c: char, part: Option<string>): string {
    match part
    case None => s
    case Some(t) => s + [c] + t
  }

  function HeadOf(p: Parts): string { WithSuffix(p.language, '_', p.territory) }

  function BodyOf(p: Parts): string { WithSuffix(HeadOf(p), '.', p.codeset) }

  function PrintLocale(p: Parts): string { WithSuffix(BodyOf(p), '@', p.modifier) }

  // ---------- round trips ----------

  lemma SplitThenJoin(s: string, c: char)
    ensures WithSuffix(SplitLast(s, c).0, c, SplitLast(s, c).1) == s
  {
  }

  /** Printing the parsed parts gives back the string. */
  lemma PrintOfParse(s: string)
    ensures PrintLocale(ParseLocale(s)) == s
  {
    SplitThenJoin(s, '@');
    var body := SplitLast(s, '@').0;
    SplitThenJoin(body, '.');
    SplitThenJoin(SplitLast(body, '.').0, '_');
  }

  lemma LastIndexUnique(s: string, c: char, i: int)
    requires -1 <= i < |s| && (i >= 0 ==> s[i] == c) && (forall k :: i < k < |s| ==> s[k] != c)
    ensures LastIndex(s, c) == i
  {
  }

  /** A suffix is split off again exactly when the split finds its separator and no later one. */
  ghost predicate Separable(s: string, c: char, part: Option<string>) {
    match part
    case None => c !in s
    case Some(t) => c !in t
  }

  lemma JoinThenSplit(s: string, c: char, part: Option<string>)
    ensures SplitLast(WithSuffix(s, c, part), c) == (s, part) <==> Separable(s, c, part)
    ensures SplitLast(WithSuffix(s, c, part), c).1 == part <==> Separable(s, c, part)
  {
    var w := WithSuffix(s, c, part);
    var i := LastIndex(w, c);
    match part {
      case None =>
      case Some(t) =>
        assert w[|s|] == c && w[|s| + 1..] == t && w[..|s|] == s;
        if c !in t {
          LastIndexUnique(w, c, |s|);
        } else {
          var k :| 0 <= k < |t| && t[k] == c;
          assert w[|s| + 1 + k] == c;
          assert |w[i + 1..]| < |t|;
        }
    }
  }

  /** No separator stands where the search from the right would find it first. */
  ghost predicate WellSeparated(p: Parts) {
    && (match p.modifier
        case Some(m) => '@' !in m
        case None => Free(p.language, p.territory, p.codeset, '@'))
    && (match p.codeset
        case Some(c) => '.' !in c
        case None => Free(p.language, p.territory, None, '.'))
    && (match p.territory
        case Some(t) => '_' !in t
        case None => '_' !in p.language)
  }

  /** `c` occurs in none of the parts. */
  predicate Free(language: string, territory: Option<string>, codeset: Option<string>, c: char) {
    c !in language && (territory.Some? ==> c !in territory.value) && (codeset.Some? ==> c !in codeset.value)
  }

  lemma FreeOfSuffix(s: string, sep: char, part: Option<string>, c: char)
    requires c != sep
    ensures c !in WithSuffix(s, sep, part) <==> c !in s && (part.Some? ==> c !in part.value)
  {
  }

  /** Parsing printed parts returns them exactly when they are well separated. */
  lemma ParseOfPrint(p: Parts)
    ensures ParseLocale(PrintLocale(p)) == p <==> WellSeparated(p)
  {
    JoinThenSplit(BodyOf(p), '@', p.modifier);
    JoinThenSplit(HeadOf(p), '.', p.codeset);
    JoinThenSplit(p.language, '_', p.territory);
    FreeOfSuffix(HeadOf(p), '.', p.codeset, '@');
    FreeOfSuffix(p.language, '_', p.territory, '@');
    FreeOfSuffix(p.language, '_', p.territory, '.');
  }

  // ---------- the parser on a character buffer ----------

  /** The C string at the start of a buffer: what precedes the first NUL. */
  function CString(s: seq<char>): string {
    if s == [] || s[0] == '\0' then "" else [s[0]] + CString(s[1..])
  }

  lemma {:induction false} CStringIs(s: seq<char>, n: nat)
    requires n <= |s| && '\0' !in s[..n] && (n < |s| ==> s[n] == '\0')
    ensures CString(s) == s[..n]
  {
    if n > 0 {
      assert s[..n][0] == s[0] && s[1..][..n - 1] == s[..n][1..];
      CStringIs(s[1..], n - 1);
    }
  }

  lemma {:induction false} CStringLength(s: seq<char>) returns (n: nat)
    ensures n <= |s| && CString(s) == s[..n] && '\0' !in s[..n] && (n < |s| ==> s[n] == '\0')
  {
    if s == [] || s[0] == '\0' {
      n := 0;
    } else {
      n := CStringLength(s[1..]);
      n := n + 1;
      assert s[..n] == [s[0]] + s[1..][..n - 1];
    }
  }

  /** A buffer that holds a terminated string. */
  ghost predicate Terminated(a: array?<char>)
    reads a
  {
    a != null && '\0' in a[..]
  }

  ghost function Text(a: array?<char>): Option<string>
    reads a
  {
    if a == null then None else Some(CString(a[..]))
  }

  /** strdup of a string. */
  method StrDup(s: string) returns (d: array<char>)
    ensures fresh(d) && Terminated(d) && CString(d[..]) == CString(s)
  {
    var n := 0;
    while n < |s| && s[n] != '\0'
      invariant n <= |s| && '\0' !in s[..n]
    {
      n := n + 1;
    }
    d := new char[n + 1](i requires 0 <= i < n + 1 => if i < n then s[i] else '\0');
    CStringIs(s, n);
    assert d[..][n] == '\0' && d[..][..n] == s[..n];
    CStringIs(d[..], n);
  }

  /** strrchr: the last position of `c` before the terminating NUL, or -1. */
  method StrRChr(l: array<char>, c: char) returns (i: int)
    requires Terminated(l) && c != '\0'
    ensures i == LastIndex(CString(l[..]), c)
  {
    ghost var n := CStringLength(l[..]);
    assert n < l.Length;
    var k := 0;
    i := -1;
    while l[k] != '\0'
      invariant 0 <= k <= n
      invariant -1 <= i < k && (i >= 0 ==> l[i] == c) && forall j :: i < j < k ==> l[j] != c
      decreases n - k
    {
      assert l[..][k] != '\0';
      if l[k] == c {
        i := k;
      }
      k := k + 1;
    }
    assert forall j :: 0 <= j < n ==> l[..][..n][j] != '\0';
    LastIndexUnique(CString(l[..]), c, i);
  }

  /** Copies what follows the last `c` and ends the string there, or returns null. */
  method CutLast(l: array<char>, c: char) returns (tail: array?<char>)
    requires Terminated(l) && c != '\0'
    modifies l
    ensures Terminated(l)
    ensures tail != null ==> fresh(tail) && Terminated(tail)
    ensures (CString(l[..]), Text(tail)) == SplitLast(old(CString(l[..])), c)
  {
    ghost var n := CStringLength(l[..]);
    ghost var s := l[..];
    var at := StrRChr(l, c);
    if at < 0 {
      return null;
    }
    tail := StrDup(l[at + 1..]);
    CutStrings(s, n, at);
    l[at] := '\0';
    assert l[..] == s[at := '\0'];
  }

  /** The strings on either side of a position that is overwritten with NUL. */
  lemma CutStrings(s: seq<char>, n: nat, at: nat)
    requires at < n <= |s| && '\0' !in s[..n] && (n < |s| ==> s[n] == '\0')
    ensures CString(s[at + 1..]) == s[..n][at + 1..]
    ensures CString(s[at := '\0']) == s[..n][..at]
  {
    assert s[at + 1..][..n - at - 1] == s[..n][at + 1..];
    CStringIs(s[at + 1..], n - at - 1);
    assert s[at := '\0'][..at] == s[..n][..at];
    CStringIs(s[at := '\0'], at);
  }

  class MyFlutterLocale {
    var languageCode: array?<char>
    var countryCode: array?<char>
    var scriptCode: array?<char>
    var variantCode: array?<char>

    constructor ()
      ensures languageCode == null && countryCode == null && scriptCode == null && variantCode == null
    {
      languageCode, countryCode, scriptCode, variantCode := null, null, null, null;
    }
  }

  /** FlutterParseLocale. The language code keeps the cut buffer, the other parts are copies; a part
      that is absent leaves its field as it was. */
  method FlutterParseLocale(locale: string, fl: MyFlutterLocale?)
    modifies fl
    ensures fl != null && locale == "" ==>
              && fl.languageCode == old(fl.languageCode) && fl.countryCode == old(fl.countryCode)
              && fl.scriptCode == old(fl.scriptCode) && fl.variantCode == old(fl.variantCode)
    ensures fl != null && locale != "" ==>
              var p := ParseLocale(CString(locale));
              && Text(fl.languageCode) == Some(p.language)
              && (if p.territory.Some? then Text(fl.countryCode) == p.territory
                  else fl.countryCode == old(fl.countryCode))
              && (if p.codeset.Some? then Text(fl.scriptCode) == p.codeset
                  else fl.scriptCode == old(fl.scriptCode))
              && (if p.modifier.Some? then Text(fl.variantCode) == p.modifier
                  else fl.variantCode == old(fl.variantCode))
  {
    if locale == "" || fl == null {
      return;
    }
    var l := StrDup(locale);
    ghost var p := ParseLocale(CString(locale));
    var variant := CutLast(l, '@');
    assert Text(variant) == p.modifier;
    if variant != null {
      fl.variantCode := variant;
    }
    var script := CutLast(l, '.');
    assert Text(script) == p.codeset;
    if script != null {
      fl.scriptCode := script;
    }
    var country := CutLast(l, '_');
    assert Text(country) == p.territory && CString(l[..]) == p.language;
    if country != null {
      fl.countryCode := country;
    }
    fl.languageCode := l;
  }

  /** What a locale structure prints as, absent parts left out. */
  ghost function Printed(fl: MyFlutterLocale): Option<string>
    reads fl, fl.languageCode, fl.countryCode, fl.scriptCode, fl.variantCode
  {
    match Text(fl.languageCode)
    case None => None
    case Some(language) =>
      Some(PrintLocale(Parts(language, Text(fl.countryCode), Text(fl.scriptCode), Text(fl.variantCode))))
  }

  lemma {:induction false} NulFreeString(s: string)
    requires '\0' !in s
    ensures CString(s) == s
  {
    CStringIs(s, |s|);
    assert s[..|s|] == s;
  }

  /** A fresh structure, filled from a non-empty name without NUL bytes, prints as that name. */
  method ParseFresh(locale: string) returns (fl: MyFlutterLocale)
    requires locale != "" && '\0' !in locale
    ensures fresh(fl) && Printed(fl) == Some(locale)
  {
    fl := new MyFlutterLocale();
    FlutterParseLocale(locale, fl);
    NulFreeString(locale);
    PrintOfParse(locale);
  }
}
