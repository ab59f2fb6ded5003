/** Strings as the service uses them: `str.strip`, `str.lower` (on ASCII) and the
    normal form under which recipients are compared with the suppression list. */
module Text {
  datatype Option<+T> = None | Some(value: T)

  predicate Blank(c: char) {
    c == ' ' || '\t' <= c <= '\r' || '\U{1C}' <= c <= '\U{1F}'
  }

  function StripLeft(s: string): string {
    if s != "" && Blank(s[0]) then StripLeft(s[1..]) else s
  }

  function StripRight(s: string): string {
    if s != "" && Blank(s[|s| - 1]) then StripRight(s[..|s| - 1]) else s
  }

  function Strip(s: string): string {
    StripRight(StripLeft(s))
  }

  function LowerChar(c: char): char {
    if 'A' <= c <= 'Z' then c + 32 as char else c
  }

  function Lower(s: string): string {
    seq(|s|, i requires 0 <= i < |s| => LowerChar(s[i]))
  }

  /** `value.strip().lower()` */
  function Norm(s: string): string {
    Lower(Strip(s))
  }

  ghost predicate Trimmed(s: string) {
    s == "" || (!Blank(s[0]) && !Blank(s[|s| - 1]))
  }

  lemma StripLeftTrims(s: string)
    ensures StripLeft(s) == "" || !Blank(StripLeft(s)[0])
  {}

  lemma {:induction false} StripRightTrims(s: string)
    requires s == "" || !Blank(s[0])
    ensures Trimmed(StripRight(s))
  {
    if s != "" && Blank(s[|s| - 1]) {
      StripRightTrims(s[..|s| - 1]);
    }
  }

  lemma StripTrims(s: string)
    ensures Trimmed(Strip(s))
  {
    StripLeftTrims(s);
    StripRightTrims(StripLeft(s));
  }

  /** Normalising twice is normalising once, so an address stored normalised is found again. */
  lemma NormIdempotent(s: string)
    ensures Norm(Norm(s)) == Norm(s)
  {
    StripTrims(s);
    var n := Norm(s);
    assert Trimmed(n);
    assert Strip(n) == n;
    assert Lower(n) == n;
  }
}
