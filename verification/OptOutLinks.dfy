/** The text an opt-out token is computed over, and when it says whose it is. */
module OptOutLinks {
  import opened Text
  import opened Store

  function TokenText(t: string, pid: Id, e: string): string {
    t + ":" + pid + ":" + e
  }

  /** For one prospect the token determines the address. */
  lemma SameProspectSameAddress(t: string, pid: Id, a: string, b: string)
    ensures OptOutToken(t, pid, a) == OptOutToken(t, pid, b) <==> Norm(a) == Norm(b)
  {
    if OptOutToken(t, pid, a) == OptOutToken(t, pid, b) {
      SameTail(t + ":" + pid + ":", Norm(a), Norm(b));
    }
  }

  lemma SameTail(prefix: string, x: string, y: string)
    requires prefix + x == prefix + y
    ensures x == y
  {
    assert x == (prefix + x)[|prefix|..] && y == (prefix + y)[|prefix|..];
  }

  /** The tenant `u` begins with `t`, a colon and `pid`, and the address `e` ends with a colon, `q` and `f`, so that the
      two texts run together the same. */
  predicate Overlap(t: string, pid: Id, e: string, u: string, q: Id, f: string) {
    var head := t + ":" + pid;
    head <= u && ":" + e == u[|head|..] + ":" + q + ":" + f
  }

  lemma OverlapIsSameText(t: string, pid: Id, e: string, u: string, q: Id, f: string)
    requires Overlap(t, pid, e, u, q, f)
    ensures TokenText(t, pid, e) == TokenText(u, q, f)
  {
    var head := t + ":" + pid;
    var mid := u[|head|..];
    assert u == head + mid;
    assert TokenText(t, pid, e) == head + (":" + e);
    assert TokenText(u, q, f) == head + (mid + ":" + q + ":" + f);
  }

  lemma ColonAt(t: string, pid: Id, e: string)
    requires ':' !in pid
    ensures var s := TokenText(t, pid, e);
      && |s| == |t| + |pid| + |e| + 2 && s[|t|] == ':' && s[|t| + 1 + |pid|] == ':'
      && (forall k :: |t| < k < |t| + 1 + |pid| ==> s[k] != ':')
      && s[..|t|] == t && s[|t| + 1..|t| + 1 + |pid|] == pid && s[|t| + |pid| + 2..] == e
      && s[..|t| + 1 + |pid|] == t + ":" + pid && s[|t| + 1 + |pid|..] == ":" + e
  {
    var s := TokenText(t, pid, e);
    forall k | |t| < k < |t| + 1 + |pid| ensures s[k] != ':' { assert s[k] == pid[k - |t| - 1]; }
  }

  lemma NextColonIsOne(s: string, from: int, i: nat, j: nat)
    requires from < i < |s| && from < j < |s| && s[i] == ':' && s[j] == ':'
    requires forall k :: 0 <= k && from < k < i ==> s[k] != ':'
    requires forall k :: 0 <= k && from < k < j ==> s[k] != ':'
    ensures i == j
  {}

  lemma SameTextSameTenant(t: string, pid: Id, e: string, u: string, q: Id, f: string)
    requires ':' !in pid && ':' !in q && |t| == |u| && TokenText(t, pid, e) == TokenText(u, q, f)
    ensures t == u && pid == q && e == f
  {
    ColonAt(t, pid, e);
    ColonAt(u, q, f);
    NextColonIsOne(TokenText(t, pid, e), |t|, |t| + 1 + |pid|, |t| + 1 + |q|);
  }

  lemma TwoSplits(head: string, x: string, u: string, y: string)
    requires head + x == u + y && |head| <= |u|
    ensures head <= u && x == u[|head|..] + y
  {
    var s := head + x;
    assert head == s[..|head|] && u == s[..|u|] && x == s[|head|..] && y == s[|u|..];
    assert s[|head|..] == s[|head|..|u|] + s[|u|..];
  }

  lemma SameTextOverlaps(t: string, pid: Id, e: string, u: string, q: Id, f: string)
    requires ':' !in pid && ':' !in q && |t| < |u| && TokenText(t, pid, e) == TokenText(u, q, f)
    ensures Overlap(t, pid, e, u, q, f)
  {
    ShorterHead(t, pid, e, u, q, f);
    var head, rest := t + ":" + pid, ":" + q + ":" + f;
    Regrouped(t, pid, e);
    Regrouped(u, q, f);
    TwoSplits(head, ":" + e, u, rest);
    Regrouped(u[|head|..], q, f);
  }

  lemma Regrouped(t: string, pid: Id, e: string)
    ensures TokenText(t, pid, e) == (t + ":" + pid) + (":" + e) == t + (":" + pid + ":" + e)
  {}

  lemma ShorterHead(t: string, pid: Id, e: string, u: string, q: Id, f: string)
    requires ':' !in pid && |t| < |u| && TokenText(t, pid, e) == TokenText(u, q, f)
    ensures |t + ":" + pid| <= |u|
  {
    ColonAt(t, pid, e);
    assert TokenText(u, q, f)[|u|] == ':';
  }

  /** Prospect ids contain no colon. Then two tokens are equal exactly when tenant, prospect and address are, or when
      one tenant's name runs on into the text of the other. */
  lemma TokensAreEqualIff(t: string, pid: Id, a: string, u: string, q: Id, b: string)
    requires ':' !in pid && ':' !in q
    ensures OptOutToken(t, pid, a) == OptOutToken(u, q, b) <==>
      || (t == u && pid == q && Norm(a) == Norm(b))
      || Overlap(t, pid, Norm(a), u, q, Norm(b)) || Overlap(u, q, Norm(b), t, pid, Norm(a))
  {
    var e, f := Norm(a), Norm(b);
    if TokenText(t, pid, e) == TokenText(u, q, f) {
      if |t| == |u| { SameTextSameTenant(t, pid, e, u, q, f); }
      else if |t| < |u| { SameTextOverlaps(t, pid, e, u, q, f); }
      else { SameTextOverlaps(u, q, f, t, pid, e); }
    }
    if Overlap(t, pid, e, u, q, f) { OverlapIsSameText(t, pid, e, u, q, f); }
    if Overlap(u, q, f, t, pid, e) { OverlapIsSameText(u, q, f, t, pid, e); }
  }

  /** So tokens of different parts differ as soon as no tenant's name, or no address, contains a colon. */
  lemma ColonFreeTokensDiffer(t: string, pid: Id, a: string, u: string, q: Id, b: string)
    requires ':' !in pid && ':' !in q
    requires (':' !in t && ':' !in u) || (':' !in Norm(a) && ':' !in Norm(b))
    ensures OptOutToken(t, pid, a) == OptOutToken(u, q, b) <==> t == u && pid == q && Norm(a) == Norm(b)
  {
    TokensAreEqualIff(t, pid, a, u, q, b);
    if Overlap(t, pid, Norm(a), u, q, Norm(b)) { OverlapNeedsColons(t, pid, Norm(a), u, q, Norm(b)); }
    if Overlap(u, q, Norm(b), t, pid, Norm(a)) { OverlapNeedsColons(u, q, Norm(b), t, pid, Norm(a)); }
  }

  lemma OverlapNeedsColons(t: string, pid: Id, e: string, u: string, q: Id, f: string)
    requires Overlap(t, pid, e, u, q, f)
    ensures ':' in u && ':' in e
  {
    var head := t + ":" + pid;
    assert head[|t|] == ':' && u[|t|] == head[|t|];
    var tail := u[|head|..] + ":" + q + ":" + f;
    var k := |u| - |head| + 1 + |q|;
    assert tail[k] == ':' && (":" + e)[k] == e[k - 1];
  }

  /** Two tenants of which one is called `a` and the other `a:p:x` can share a token. */
  lemma ColonsCanCollide()
    ensures OptOutToken("a", "p", "x:q:y@z") == OptOutToken("a:p:x", "q", "y@z")
  {
    var long, short := "x:q:y@z", "y@z";
    assert Strip(long) == long && Lower(long) == long;
    assert Strip(short) == short && Lower(short) == short;
    assert TokenText("a", "p", long) == TokenText("a:p:x", "q", short);
  }
}
