/** The canonical text is JSON: a reader written from sections 5 and 7 of RFC 8259 gives back what was written. */
module JsonText {
  import opened Text
  import opened CanonicalJson

  function HexValue(c: char): Option<nat> {
    if '0' <= c <= '9' then Some(c as int - '0' as int)
    else if 'a' <= c <= 'f' then Some(c as int - 'a' as int + 10)
    else if 'A' <= c <= 'F' then Some(c as int - 'A' as int + 10)
    else None
  }

  /** The number after a backslash and a `u`. */
  function ReadUnit(s: string): Option<nat> {
    if |s| < 6 || s[0] != '\\' || s[1] != 'u' then None
    else
      match (HexValue(s[2]), HexValue(s[3]), HexValue(s[4]), HexValue(s[5]))
      case (Some(a), Some(b), Some(c), Some(d)) => Some(4096 * a + 256 * b + 16 * c + d)
      case _ => None
  }

  /** What the letter after a backslash stands for. */
  function ReadShort(c: char): Option<char> {
    match c
    case '\"' => Some('\"')
    case '\\' => Some('\\')
    case '/' => Some('/')
    case 'b' => Some('\U{8}')
    case 'f' => Some('\U{C}')
    case 'n' => Some('\n')
    case 'r' => Some('\r')
    case 't' => Some('\t')
    case _ => None
  }

  /** A high and a low surrogate together. */
  function Combined(high: nat, low: nat): Option<char> {
    if 0xD800 <= high < 0xDC00 && 0xDC00 <= low < 0xE000
    then Some((0x10000 + 1024 * (high - 0xD800) + (low - 0xDC00)) as char) else None
  }

  /** The first character inside a string, and what follows it; no result at its end. */
  function ReadChar(s: string): Option<(char, string)> {
    if s == "" || s[0] == '\"' then None
    else if s[0] != '\\' then Some((s[0], s[1..]))
    else if |s| < 2 then None
    else if s[1] != 'u' then (match ReadShort(s[1]) case Some(c) => Some((c, s[2..])) case None => None)
    else
      match ReadUnit(s)
      case None => None
      case Some(unit) =>
        if 0xD800 <= unit < 0xE000 then
          match ReadUnit(s[6..])
          case None => None
          case Some(low) => (match Combined(unit, low) case Some(c) => Some((c, s[6..][6..])) case None => None)
        else if unit < 0x10000 then Some((unit as char, s[6..]))
        else None
  }

  lemma HexIsRead(d: nat)
    requires d < 16
    ensures HexValue(HexDigit(d)) == Some(d)
  {}

  lemma UnitIsRead(n: nat, x: string)
    requires n < 0x10000
    ensures ReadUnit(CodeUnit(n) + x) == Some(n) && (CodeUnit(n) + x)[6..] == x
  {
    HexIsRead(n / 4096);
    HexIsRead(n / 256 % 16);
    HexIsRead(n / 16 % 16);
    HexIsRead(n % 16);
    NumberFromDigits(n);
  }

  lemma HalvesCombine(c: char)
    requires c as int >= 0x10000
    ensures var u := c as int - 0x10000;
      0xD800 <= 0xD800 + u / 1024 < 0xDC00 && Combined(0xD800 + u / 1024, 0xDC00 + u % 1024) == Some(c)
  {
    var u := c as int - 0x10000;
    assert u == 1024 * (u / 1024) + u % 1024;
  }

  lemma PairIsRead(s: string, high: nat, low: nat, c: char)
    requires ReadUnit(s) == Some(high) && 0xD800 <= high < 0xDC00
    requires ReadUnit(s[6..]) == Some(low) && Combined(high, low) == Some(c)
    ensures ReadChar(s) == Some((c, s[6..][6..]))
  {}

  lemma SingleIsRead(s: string, c: char)
    requires ReadUnit(s) == Some(c as int) && c as int < 0x10000
    ensures ReadChar(s) == Some((c, s[6..]))
  {}

  lemma LongIsRead(c: char, x: string)
    ensures ReadChar(CodeUnit(FirstUnit(c)) + (AfterFirstUnit(c) + x)) == Some((c, x))
  {
    var s := CodeUnit(FirstUnit(c)) + (AfterFirstUnit(c) + x);
    UnitIsRead(FirstUnit(c), AfterFirstUnit(c) + x);
    if c as int >= 0x10000 {
      var low := 0xDC00 + (c as int - 0x10000) % 1024;
      UnitIsRead(low, x);
      HalvesCombine(c);
      PairIsRead(s, FirstUnit(c), low, c);
    } else {
      assert "" + x == x;
      SingleIsRead(s, c);
    }
  }

  /** Every character is read back from its escape, whatever follows. */
  lemma EscapeIsRead(c: char, x: string)
    ensures ReadChar(Escape(c) + x) == Some((c, x))
  {
    if Short(c).Some? {
      assert (Escape(c) + x)[2..] == x;
    } else if Plain(c) {
      assert (Escape(c) + x)[1..] == x;
    } else {
      LongEscape(c);
      LongIsRead(c, x);
      Regroup(CodeUnit(FirstUnit(c)), AfterFirstUnit(c), x);
    }
  }

  /** Everything that is written is printable ASCII. */
  lemma EscapeIsAscii(c: char)
    ensures forall i :: 0 <= i < |Escape(c)| ==> ' ' <= Escape(c)[i] <= '~'
  {}

  /** The characters up to the closing quote, and what follows it. */
  ghost predicate Reads(s: string, text: string, rest: string)
    decreases |text|
  {
    if text == "" then s == "\"" + rest
    else ReadChar(s).Some? && ReadChar(s).value.0 == text[0] && Reads(ReadChar(s).value.1, text[1..], rest)
  }

  lemma {:induction false} EscapedIsRead(text: string, rest: string)
    ensures Reads(Escaped(text) + "\"" + rest, text, rest)
  {
    if text == "" {
      assert Escaped(text) + "\"" + rest == "\"" + rest;
    } else {
      EscapedStart(text, rest);
      EscapeIsRead(text[0], Escaped(text[1..]) + "\"" + rest);
      EscapedIsRead(text[1..], rest);
    }
  }

  /** A written string is a quote, and reads as what it was made of up to the closing one. */
  lemma QuotedIsRead(text: string, rest: string)
    ensures Quoted(text) + rest == "\"" + (Quoted(text) + rest)[1..]
    ensures Reads((Quoted(text) + rest)[1..], text, rest)
  {
    QuotedTail(text, rest);
    EscapedIsRead(text, rest);
  }

  /** The texts of the items with a comma between each two. */
  function Joined<T>(items: seq<T>, text: T -> string): string {
    if items == [] then ""
    else if |items| == 1 then text(items[0])
    else Joined(items[..|items| - 1], text) + "," + text(items[|items| - 1])
  }

  lemma {:induction false} MoreItemsJoin<T>(rest: seq<T>, done: seq<T>, text: T -> string)
    requires done != []
    ensures Joined(done, text) + MoreItems(rest, text) == Joined(done + rest, text) + "]"
    decreases |rest|
  {
    if rest == [] {
      assert done + rest == done;
    } else {
      var more := done + [rest[0]];
      assert more[..|more| - 1] == done && done + rest == more + rest[1..];
      MoreItemsJoin(rest[1..], more, text);
      AppendFourth(Joined(done, text), ",", text(rest[0]), MoreItems(rest[1..], text));
    }
  }

  lemma AppendFourth(a: string, b: string, c: string, d: string)
    ensures a + (b + c + d) == a + b + c + d
  {}

  /** A written list is its items' texts with commas in between, in brackets. */
  lemma ListIsJoined<T>(items: seq<T>, text: T -> string)
    ensures ListText(items, text) == "[" + Joined(items, text) + "]"
  {
    if items != [] {
      MoreItemsJoin(items[1..], [items[0]], text);
      assert [items[0]] + items[1..] == items;
      assert Joined([items[0]], text) == text(items[0]);
      Regroup("[", Joined(items, text), "]");
    }
  }

  /** The two texts that are hashed: a list of strings, and a list of lists of two strings. */
  lemma CanonicalTexts(ids: seq<string>, pairs: seq<(string, string)>)
    ensures CanonicalIds(ids) == "[" + Joined(ids, Quoted) + "]"
    ensures CanonicalOwnership(pairs)
      == "[" + Joined(pairs, (p: (string, string)) => "[" + (Quoted(p.0) + "," + Quoted(p.1)) + "]") + "]"
  {
    ListIsJoined(ids, Quoted);
    ListIsJoined(pairs, PairText);
    var spelled := (p: (string, string)) => "[" + (Quoted(p.0) + "," + Quoted(p.1)) + "]";
    forall p: (string, string) ensures PairText(p) == spelled(p) {
      ListIsJoined([p.0, p.1], Quoted);
      assert [p.0, p.1][..1] == [p.0] && Joined([p.0], Quoted) == Quoted(p.0);
    }
    SameTextsJoin(pairs, PairText, spelled);
  }

  lemma {:induction false} SameTextsJoin<T>(items: seq<T>, f: T -> string, g: T -> string)
    requires forall i :: 0 <= i < |items| ==> f(items[i]) == g(items[i])
    ensures Joined(items, f) == Joined(items, g)
  {
    if |items| > 1 { SameTextsJoin(items[..|items| - 1], f, g); }
  }
}
