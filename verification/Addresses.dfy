/** When two spellings are one address, said without computing a normal form, and that the normal form decides it. */
module Addresses {
  import opened Text

  /** What `str.strip` takes off, in ASCII. */
  const BLANKS: set<char> :=
    {' ', '\t', '\n', '\U{0B}', '\U{0C}', '\r', '\U{1C}', '\U{1D}', '\U{1E}', '\U{1F}'}

  ghost predicate OnlyBlanks(s: string) {
    forall i :: 0 <= i < |s| ==> s[i] in BLANKS
  }

  /** `core` is what remains of `s` when the blanks before `i` and from `j` on are taken off. */
  ghost predicate Between(s: string, i: nat, j: nat, core: string) {
    && i <= j <= |s| && core == s[i..j] && OnlyBlanks(s[..i]) && OnlyBlanks(s[j..])
    && (core != "" ==> core[0] !in BLANKS && core[|core| - 1] !in BLANKS)
  }

  ghost predicate Core(s: string, core: string) {
    exists i: nat, j: nat :: Between(s, i, j, core)
  }

  /** The same letter up to ASCII case, or the same character. */
  predicate SameLetter(c: char, d: char) {
    c == d || ('A' <= c <= 'Z' && d as int == c as int + 32) || ('A' <= d <= 'Z' && c as int == d as int + 32)
  }

  ghost predicate SameLetters(a: string, b: string) {
    |a| == |b| && forall i :: 0 <= i < |a| ==> SameLetter(a[i], b[i])
  }

  /** Two spellings of one address: equal up to ASCII case and outer blanks. */
  ghost predicate SameAddress(a: string, b: string) {
    exists m, n :: Core(a, m) && Core(b, n) && SameLetters(m, n)
  }

  // ----- stripping

  lemma BlankMeans(c: char)
    ensures Blank(c) <==> c in BLANKS
  {}

  lemma {:induction false} StripLeftCuts(s: string) returns (i: nat)
    ensures i <= |s| && StripLeft(s) == s[i..] && OnlyBlanks(s[..i])
    ensures i < |s| ==> s[i] !in BLANKS
  {
    i := 0;
    if s != "" {
      BlankMeans(s[0]);
      if Blank(s[0]) {
        var k := StripLeftCuts(s[1..]);
        i := k + 1;
        assert s[i..] == s[1..][k..] && s[..i] == [s[0]] + s[1..][..k];
      }
    }
  }

  lemma {:induction false} StripRightCuts(s: string) returns (j: nat)
    ensures j <= |s| && StripRight(s) == s[..j] && OnlyBlanks(s[j..])
    ensures j > 0 ==> s[j - 1] !in BLANKS
  {
    j := |s|;
    if s != "" {
      var n := |s| - 1;
      BlankMeans(s[n]);
      if Blank(s[n]) {
        j := StripRightCuts(s[..n]);
        assert s[..n][..j] == s[..j] && s[j..] == s[..n][j..] + [s[n]];
      }
    }
  }

  lemma StripIsCore(s: string)
    ensures Core(s, Strip(s))
  {
    var i := StripLeftCuts(s);
    var k := StripRightCuts(s[i..]);
    assert Strip(s) == s[i..][..k] == s[i..i + k];
    assert s[i..][k..] == s[i + k..];
    assert Between(s, i, i + k, Strip(s));
  }

  lemma BlankEverywhere(s: string, i: nat, j: nat, k: nat)
    requires Between(s, i, j, "") && k < |s|
    ensures s[k] in BLANKS
  {
    if k < i { assert s[..i][k] == s[k]; } else { assert s[j..][k - j] == s[k]; }
  }

  lemma CoreStarts(s: string, i: nat, j: nat, m: string, k: nat, l: nat, n: string)
    requires Between(s, i, j, m) && Between(s, k, l, n) && m != ""
    ensures n != "" && i == k && j == l
  {
    assert m[0] == s[i] && m[|m| - 1] == s[j - 1];
    if n == "" { BlankEverywhere(s, k, l, i); }
    assert n[0] == s[k] && n[|n| - 1] == s[l - 1];
  }

  /** What remains without the outer blanks is determined. */
  lemma OneCore(s: string, m: string, n: string)
    requires Core(s, m) && Core(s, n)
    ensures m == n
  {
    var i: nat, j: nat :| Between(s, i, j, m);
    var k: nat, l: nat :| Between(s, k, l, n);
    if m != "" { CoreStarts(s, i, j, m, k, l, n); } else if n != "" { CoreStarts(s, k, l, n, i, j, m); }
  }

  /** Stripping takes off the outer blanks and nothing else. */
  lemma StripMeans(s: string, m: string)
    ensures Strip(s) == m <==> Core(s, m)
  {
    StripIsCore(s);
    if Core(s, m) { OneCore(s, m, Strip(s)); }
  }

  // ----- the normal form

  lemma SameLetterMeans(c: char, d: char)
    ensures LowerChar(c) == LowerChar(d) <==> SameLetter(c, d)
  {}

  lemma LowerMeans(a: string, b: string)
    ensures Lower(a) == Lower(b) <==> SameLetters(a, b)
  {
    if Lower(a) == Lower(b) {
      assert |Lower(a)| == |a| && |Lower(b)| == |b|;
      forall i | 0 <= i < |a| ensures SameLetter(a[i], b[i]) {
        assert Lower(a)[i] == Lower(b)[i];
        SameLetterMeans(a[i], b[i]);
      }
    }
    if SameLetters(a, b) {
      forall i | 0 <= i < |a| ensures LowerChar(a[i]) == LowerChar(b[i]) { SameLetterMeans(a[i], b[i]); }
    }
  }

  /** Two spellings have the same normal form exactly when they are one address. */
  lemma NormDecides(a: string, b: string)
    ensures Norm(a) == Norm(b) <==> SameAddress(a, b)
  {
    LowerMeans(Strip(a), Strip(b));
    StripMeans(a, Strip(a));
    StripMeans(b, Strip(b));
    if SameAddress(a, b) {
      var m, n :| Core(a, m) && Core(b, n) && SameLetters(m, n);
      StripMeans(a, m);
      StripMeans(b, n);
    }
  }

  lemma TrimmedIsCore(s: string)
    requires Trimmed(s)
    ensures Core(s, s)
  {
    assert s[0..|s|] == s && s[..0] == "" && s[|s|..] == "";
    if s != "" { BlankMeans(s[0]); BlankMeans(s[|s| - 1]); }
    assert Between(s, 0, |s|, s);
  }

  predicate NoCapital(s: string) {
    forall i :: 0 <= i < |s| ==> !('A' <= s[i] <= 'Z')
  }

  lemma NormIsPlain(s: string)
    ensures NoCapital(Norm(s)) && Core(Norm(s), Norm(s))
  {
    StripTrims(s);
    TrimmedIsCore(Norm(s));
  }

  lemma PlainIsNorm(n: string)
    requires NoCapital(n) && Core(n, n)
    ensures Norm(n) == n
  {
    StripMeans(n, n);
    assert Lower(n) == n;
  }

  /** The normal form is the spelling of the address that has no capital and no outer blank. */
  lemma NormIsSpelling(s: string, n: string)
    ensures n == Norm(s) <==> SameAddress(s, n) && Core(n, n) && NoCapital(n)
  {
    NormDecides(s, n);
    NormIdempotent(s);
    NormIsPlain(s);
    if Core(n, n) && NoCapital(n) { PlainIsNorm(n); }
  }
}
