/** The boundary check on extracted facts: a worklist over nested values that blocks exactly the
    payloads with a decisional key somewhere inside. */
module FactScan {
  import opened Text
  import opened Addresses

  /** Decoded JSON, with everything that is neither a dictionary nor a list as a leaf. */
  datatype Value = Dict(entries: seq<Entry>) | Items(items: seq<Value>) | Leaf
  datatype Entry = Entry(key: string, value: Value)

  const FORBIDDEN_OUTPUT_FIELDS: set<string> := {
    "score", "scores", "priority_score", "price", "prices", "max_price", "min_price",
    "recommended_price", "rav", "valuation", "margin", "budget", "forecast"
  }

  predicate Decisional(key: string) {
    Lower(key) in FORBIDDEN_OUTPUT_FIELDS
  }

  /** A key is decisional exactly when it spells one of these words, in any letter case. */
  lemma DecisionalMeans(key: string)
    ensures Decisional(key) <==>
      || SameLetters(key, "score") || SameLetters(key, "scores") || SameLetters(key, "priority_score")
      || SameLetters(key, "price") || SameLetters(key, "prices") || SameLetters(key, "max_price")
      || SameLetters(key, "min_price") || SameLetters(key, "recommended_price") || SameLetters(key, "rav")
      || SameLetters(key, "valuation") || SameLetters(key, "margin") || SameLetters(key, "budget")
      || SameLetters(key, "forecast")
  {
    forall word | word in FORBIDDEN_OUTPUT_FIELDS ensures Lower(key) == word <==> SameLetters(key, word) {
      PlainWord(word);
      LowerMeans(key, word);
    }
  }

  lemma PlainWord(word: string)
    requires word in FORBIDDEN_OUTPUT_FIELDS
    ensures Lower(word) == word
  {}

  function Children(v: Value): (r: seq<Value>)
    ensures v.Dict? ==> |r| == |v.entries| && forall i :: 0 <= i < |r| ==> r[i] == v.entries[i].value
    ensures v.Items? ==> r == v.items
    ensures v.Leaf? ==> r == []
  {
    match v
    case Dict(entries) => seq(|entries|, i requires 0 <= i < |entries| => entries[i].value)
    case Items(items) => items
    case Leaf => []
  }

  predicate OwnKeyDecisional(v: Value) {
    v.Dict? && exists i :: 0 <= i < |v.entries| && Decisional(v.entries[i].key)
  }

  // ----- what it means

  /** The value reached by taking the numbered child at each step. */
  function At(v: Value, path: seq<nat>): Option<Value>
    decreases |path|
  {
    if path == [] then Some(v)
    else if path[0] < |Children(v)| then At(Children(v)[path[0]], path[1..]) else None
  }

  ghost predicate DecisionalAt(v: Value, path: seq<nat>) {
    At(v, path).Some? && OwnKeyDecisional(At(v, path).value)
  }

  /** A decisional key occurs in some dictionary at any depth. */
  ghost predicate Mentions(v: Value) {
    exists path :: DecisionalAt(v, path)
  }

  lemma MentionsUnfolds(v: Value)
    ensures Mentions(v) <==> OwnKeyDecisional(v) || exists i :: 0 <= i < |Children(v)| && Mentions(Children(v)[i])
  {
    if Mentions(v) {
      var path :| DecisionalAt(v, path);
      if path != [] {
        assert DecisionalAt(Children(v)[path[0]], path[1..]);
        assert Mentions(Children(v)[path[0]]);
      }
    }
    if OwnKeyDecisional(v) { assert DecisionalAt(v, []); }
    if i :| 0 <= i < |Children(v)| && Mentions(Children(v)[i]) {
      var path :| DecisionalAt(Children(v)[i], path);
      assert ([i] + path)[1..] == path;
      assert DecisionalAt(v, [i] + path);
    }
  }

  // ----- the worklist

  /** Nodes in a value; in a worklist, counted from its end, where it is pushed and popped. */
  function Size(v: Value): nat {
    1 + match v
        case Dict(entries) => EntriesSize(entries)
        case Items(items) => ItemsSize(items)
        case Leaf => 0
  }

  function EntriesSize(entries: seq<Entry>): nat {
    if entries == [] then 0 else EntriesSize(entries[..|entries| - 1]) + Size(entries[|entries| - 1].value)
  }

  function ItemsSize(items: seq<Value>): nat {
    if items == [] then 0 else ItemsSize(items[..|items| - 1]) + Size(items[|items| - 1])
  }

  lemma {:induction false} SizeAppends(a: seq<Value>, b: seq<Value>)
    ensures ItemsSize(a + b) == ItemsSize(a) + ItemsSize(b)
  {
    if b == [] {
      assert a + b == a;
    } else {
      SizeAppends(a, b[..|b| - 1]);
      assert (a + b)[..|a + b| - 1] == a + b[..|b| - 1];
    }
  }

  ghost predicate AnyMentions(vs: seq<Value>) {
    exists i :: 0 <= i < |vs| && Mentions(vs[i])
  }

  lemma AnySplits(a: seq<Value>, b: seq<Value>)
    ensures AnyMentions(a + b) <==> AnyMentions(a) || AnyMentions(b)
  {
    if i :| 0 <= i < |a| && Mentions(a[i]) { assert (a + b)[i] == a[i]; }
    if i :| 0 <= i < |b| && Mentions(b[i]) { assert (a + b)[|a| + i] == b[i]; }
  }

  lemma Single(v: Value)
    ensures AnyMentions([v]) <==> Mentions(v)
    ensures ItemsSize([v]) == Size(v)
  {
    assert [v][..|[v]| - 1] == [];
    if Mentions(v) { assert Mentions([v][0]); }
  }

  /** Taking a value off the worklist and pushing its children back loses no decisional key and
      makes the worklist smaller. */
  lemma Unfolding(stack: seq<Value>, rest: seq<Value>, current: Value, next: seq<Value>)
    requires stack == rest + [current] && next == rest + Children(current) && !OwnKeyDecisional(current)
    requires ItemsSize(Children(current)) < Size(current)
    ensures AnyMentions(next) <==> AnyMentions(stack)
    ensures ItemsSize(next) < ItemsSize(stack)
  {
    AnySplits(rest, [current]);
    AnySplits(rest, Children(current));
    Single(current);
    MentionsUnfolds(current);
    assert AnyMentions(Children(current)) <==>
      exists i :: 0 <= i < |Children(current)| && Mentions(Children(current)[i]);
    SizeAppends(rest, [current]);
    SizeAppends(rest, Children(current));
  }

  lemma TopIsDecisional(stack: seq<Value>, rest: seq<Value>, current: Value)
    requires stack == rest + [current] && OwnKeyDecisional(current)
    ensures AnyMentions(stack)
  {
    MentionsUnfolds(current);
    Single(current);
    AnySplits(rest, [current]);
  }

  /** The loop over one dictionary: collects the values up to the first decisional key. */
  method PushValues(entries: seq<Entry>) returns (found: bool, values: seq<Value>)
    ensures found <==> OwnKeyDecisional(Dict(entries))
    ensures !found ==> values == Children(Dict(entries)) && ItemsSize(values) == EntriesSize(entries)
  {
    values := [];
    for i := 0 to |entries|
      invariant values == Children(Dict(entries))[..i] && ItemsSize(values) == EntriesSize(entries[..i])
      invariant forall j :: 0 <= j < i ==> !Decisional(entries[j].key)
    {
      if Decisional(entries[i].key) { return true, values; }
      assert (values + [entries[i].value])[..i] == values && entries[..i + 1][..i] == entries[..i];
      values := values + [entries[i].value];
    }
    assert entries[..|entries|] == entries;
    found := false;
  }

  /** `assert_no_decisional_fields`, which raises where this answers true. */
  method BlocksDecisionalFields(payload: Value) returns (blocked: bool)
    ensures blocked <==> Mentions(payload)
  {
    var stack := [payload];
    Single(payload);
    while stack != []
      invariant AnyMentions(stack) <==> Mentions(payload)
      decreases ItemsSize(stack)
    {
      var current, rest := stack[|stack| - 1], stack[..|stack| - 1];
      ghost var before := stack;
      assert stack == rest + [current];
      match current {
        case Dict(entries) =>
          var found, values := PushValues(entries);
          if found {
            TopIsDecisional(before, rest, current);
            return true;
          }
          stack := rest + values;
        case Items(items) =>
          stack := rest + items;
        case Leaf =>
          stack := rest;
          assert stack == rest + Children(current);
      }
      Unfolding(before, rest, current, stack);
    }
    blocked := false;
  }
}
