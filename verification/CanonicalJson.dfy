/** The canonical JSON text of a list of strings or of string pairs, and why it can be hashed in
    place of the list: no two lists have the same text. */
module CanonicalJson {
  import opened Text

  // ----- characters

  function HexDigit(d: nat): char
    requires d < 16
  {
    if d < 10 then '0' + d as char else 'a' + (d - 10) as char
  }

  /** The escape of one UTF-16 code unit. */
  function CodeUnit(n: nat): string
    requires n < 0x10000
  {
    ['\\', 'u', HexDigit(n / 4096), HexDigit(n / 256 % 16), HexDigit(n / 16 % 16), HexDigit(n % 16)]
  }

  /** The letter of a two-character escape, where there is one. */
  function Short(c: char): Option<char> {
    if c == '\"' then Some('\"')
    else if c == '\\' then Some('\\')
    else if c == '\n' then Some('n')
    else if c == '\r' then Some('r')
    else if c == '\t' then Some('t')
    else if c == '\U{8}' then Some('b')
    else if c == '\U{C}' then Some('f')
    else None
  }

  predicate Plain(c: char) {
    Short(c).None? && ' ' <= c <= '~'
  }

  /** ASCII-only JSON: characters beyond the basic plane become a surrogate pair. */
  function Escape(c: char): string {
    if Short(c).Some? then ['\\', Short(c).value]
    else if Plain(c) then [c]
    else if c as int < 0x10000 then CodeUnit(c as int)
    else CodeUnit(0xD800 + (c as int - 0x10000) / 1024) + CodeUnit(0xDC00 + (c as int - 0x10000) % 1024)
  }

  lemma HexDigitsDiffer(a: nat, b: nat)
    requires a < 16 && b < 16 && HexDigit(a) == HexDigit(b)
    ensures a == b
  {}

  lemma NumberFromDigits(n: nat)
    requires n < 0x10000
    ensures n == 4096 * (n / 4096) + 256 * (n / 256 % 16) + 16 * (n / 16 % 16) + n % 16
  {
    assert n / 256 == (n / 16) / 16 && n / 4096 == (n / 256) / 16;
  }

  lemma SameCodeUnit(m: nat, n: nat, x: string, y: string)
    requires m < 0x10000 && n < 0x10000 && CodeUnit(m) + x == CodeUnit(n) + y
    ensures m == n && x == y
  {
    var s := CodeUnit(m) + x;
    assert s[2] == HexDigit(m / 4096) == HexDigit(n / 4096);
    assert s[3] == HexDigit(m / 256 % 16) == HexDigit(n / 256 % 16);
    assert s[4] == HexDigit(m / 16 % 16) == HexDigit(n / 16 % 16);
    assert s[5] == HexDigit(m % 16) == HexDigit(n % 16);
    HexDigitsDiffer(m / 4096, n / 4096);
    HexDigitsDiffer(m / 256 % 16, n / 256 % 16);
    HexDigitsDiffer(m / 16 % 16, n / 16 % 16);
    HexDigitsDiffer(m % 16, n % 16);
    NumberFromDigits(m);
    NumberFromDigits(n);
    assert s[6..] == x && s[6..] == y;
  }

  /** The first code unit of an escape; a character beyond the basic plane has a second one. */
  function FirstUnit(c: char): nat {
    if c as int < 0x10000 then c as int else 0xD800 + (c as int - 0x10000) / 1024
  }

  function AfterFirstUnit(c: char): string {
    if c as int < 0x10000 then "" else CodeUnit(0xDC00 + (c as int - 0x10000) % 1024)
  }

  lemma Regroup(a: string, b: string, c: string)
    ensures (a + b) + c == a + (b + c)
  {}

  lemma SameLongEscape(c: char, d: char, x: string, y: string)
    requires CodeUnit(FirstUnit(c)) + AfterFirstUnit(c) + x == CodeUnit(FirstUnit(d)) + AfterFirstUnit(d) + y
    ensures c == d && x == y
  {
    Regroup(CodeUnit(FirstUnit(c)), AfterFirstUnit(c), x);
    Regroup(CodeUnit(FirstUnit(d)), AfterFirstUnit(d), y);
    SameCodeUnit(FirstUnit(c), FirstUnit(d), AfterFirstUnit(c) + x, AfterFirstUnit(d) + y);
    if c as int >= 0x10000 {
      var u, v := c as int - 0x10000, d as int - 0x10000;
      SameCodeUnit(0xDC00 + u % 1024, 0xDC00 + v % 1024, x, y);
      assert u == 1024 * (u / 1024) + u % 1024 && v == 1024 * (v / 1024) + v % 1024;
    } else {
      assert "" + x == x && "" + y == y;
    }
  }

  lemma LongEscape(c: char)
    requires Short(c).None? && !Plain(c)
    ensures Escape(c) == CodeUnit(FirstUnit(c)) + AfterFirstUnit(c)
  {}

  /** No escape is the start of another one, so text is read back one character at a time. */
  lemma EscapesDiffer(c: char, d: char, x: string, y: string)
    requires Escape(c) + x == Escape(d) + y
    ensures c == d && x == y
  {
    var s := Escape(c) + x;
    assert s[0] == Escape(c)[0] == Escape(d)[0];
    if Plain(c) {
      assert s[1..] == x && s[1..] == y;
    } else {
      assert s[1] == Escape(c)[1] == Escape(d)[1];
      if Short(c).Some? {
        assert s[2..] == x && s[2..] == y;
      } else {
        LongEscape(c);
        LongEscape(d);
        SameLongEscape(c, d, x, y);
      }
    }
  }

  // ----- strings

  function Escaped(s: string): string {
    if s == "" then "" else Escape(s[0]) + Escaped(s[1..])
  }

  function Quoted(s: string): (r: string) {
    "\"" + Escaped(s) + "\""
  }

  lemma EscapedStart(s: string, x: string)
    requires s != ""
    ensures Escaped(s) + "\"" + x == Escape(s[0]) + (Escaped(s[1..]) + "\"" + x)
    ensures (Escaped(s) + "\"" + x)[0] != '\"'
  {}

  lemma {:induction false} EscapedEnds(s: string, t: string, x: string, y: string)
    requires Escaped(s) + "\"" + x == Escaped(t) + "\"" + y
    ensures s == t && x == y
  {
    if s != "" { EscapedStart(s, x); }
    if t != "" { EscapedStart(t, y); }
    if s == "" || t == "" {
      assert s == t == "";
      assert (Escaped(s) + "\"" + x)[1..] == x && (Escaped(t) + "\"" + y)[1..] == y;
    } else {
      EscapesDiffer(s[0], t[0], Escaped(s[1..]) + "\"" + x, Escaped(t[1..]) + "\"" + y);
      EscapedEnds(s[1..], t[1..], x, y);
      assert s == [s[0]] + s[1..] && t == [t[0]] + t[1..];
    }
  }

  // ----- lists

  /** A code whose texts can be told apart whatever follows them, and from the end of a list. */
  ghost predicate Readable<T(!new)>(text: T -> string) {
    && (forall a, b, x, y :: text(a) + x == text(b) + y ==> a == b && x == y)
    && (forall a :: text(a) != "" && text(a)[0] != ']')
  }

  function MoreItems<T>(items: seq<T>, text: T -> string): string {
    if items == [] then "]" else "," + text(items[0]) + MoreItems(items[1..], text)
  }

  function ListText<T>(items: seq<T>, text: T -> string): string {
    "[" + if items == [] then "]" else text(items[0]) + MoreItems(items[1..], text)
  }

  lemma {:induction false} SameMoreItems<T(!new)>(s: seq<T>, t: seq<T>, text: T -> string, x: string, y: string)
    requires Readable(text) && MoreItems(s, text) + x == MoreItems(t, text) + y
    ensures s == t && x == y
  {
    var whole := MoreItems(s, text) + x;
    assert whole[0] == if s == [] then ']' else ',';
    assert whole[0] == if t == [] then ']' else ',';
    if s == [] {
      assert whole[1..] == x && whole[1..] == y;
    } else {
      var u, v := MoreItems(s[1..], text) + x, MoreItems(t[1..], text) + y;
      assert whole[1..] == text(s[0]) + u && whole[1..] == text(t[0]) + v;
      SameMoreItems(s[1..], t[1..], text, x, y);
      assert s == [s[0]] + s[1..] && t == [t[0]] + t[1..];
    }
  }

  lemma SameList<T(!new)>(s: seq<T>, t: seq<T>, text: T -> string, x: string, y: string)
    requires Readable(text) && ListText(s, text) + x == ListText(t, text) + y
    ensures s == t && x == y
  {
    var whole := ListText(s, text) + x;
    assert s == [] ==> whole[1] == ']';
    assert t == [] ==> whole[1] == ']';
    assert s != [] ==> whole[1] == text(s[0])[0];
    assert t != [] ==> whole[1] == text(t[0])[0];
    if s == [] {
      assert whole[2..] == x && whole[2..] == y;
    } else {
      var u, v := MoreItems(s[1..], text) + x, MoreItems(t[1..], text) + y;
      assert whole[1..] == text(s[0]) + u && whole[1..] == text(t[0]) + v;
      SameMoreItems(s[1..], t[1..], text, x, y);
      assert s == [s[0]] + s[1..] && t == [t[0]] + t[1..];
    }
  }

  // ----- the two shapes that are hashed

  function PairText(p: (string, string)): string {
    ListText([p.0, p.1], Quoted)
  }

  function CanonicalIds(ids: seq<string>): string {
    ListText(ids, Quoted)
  }

  function CanonicalOwnership(pairs: seq<(string, string)>): string {
    ListText(pairs, PairText)
  }

  lemma QuotedTail(a: string, x: string)
    ensures (Quoted(a) + x)[1..] == Escaped(a) + "\"" + x
  {}

  lemma SameQuoted(a: string, b: string, x: string, y: string)
    requires Quoted(a) + x == Quoted(b) + y
    ensures a == b && x == y
  {
    QuotedTail(a, x);
    QuotedTail(b, y);
    EscapedEnds(a, b, x, y);
  }

  lemma StringsAreReadable()
    ensures Readable(Quoted)
  {
    forall a, b, x, y | Quoted(a) + x == Quoted(b) + y ensures a == b && x == y {
      SameQuoted(a, b, x, y);
    }
  }

  lemma PairsAreReadable()
    ensures Readable(PairText)
  {
    StringsAreReadable();
    forall a, b, x, y | PairText(a) + x == PairText(b) + y ensures a == b && x == y {
      SameList([a.0, a.1], [b.0, b.1], Quoted, x, y);
      assert a.0 == [a.0, a.1][0] && a.1 == [a.0, a.1][1];
      assert b.0 == [b.0, b.1][0] && b.1 == [b.0, b.1][1];
    }
  }

  /** The canonical text determines the list. */
  lemma CanonicalTextIsInjective(ids: seq<string>, ids': seq<string>, pairs: seq<(string, string)>,
                                 pairs': seq<(string, string)>)
    ensures CanonicalIds(ids) == CanonicalIds(ids') ==> ids == ids'
    ensures CanonicalOwnership(pairs) == CanonicalOwnership(pairs') ==> pairs == pairs'
  {
    StringsAreReadable();
    PairsAreReadable();
    if CanonicalIds(ids) == CanonicalIds(ids') { SameList(ids, ids', Quoted, "", ""); }
    if CanonicalOwnership(pairs) == CanonicalOwnership(pairs') { SameList(pairs, pairs', PairText, "", ""); }
  }
}
