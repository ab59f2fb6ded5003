/** Promotion to the CRM over an unreliable network: a retrying client with a stable idempotency
    key against a server that honours it. */
module Crm {
  import opened Text
  import opened Store
  import opened Requests
  import opened Retry

  // ----- the key

  function Key(tenant: string, pid: Id): string {
    "nova-prospect:" + tenant + ":" + pid
  }

  lemma LastColonIsOne(s: string, i: nat, j: nat)
    requires i < |s| && j < |s| && s[i] == ':' && s[j] == ':'
    requires forall k :: i < k < |s| ==> s[k] != ':'
    requires forall k :: j < k < |s| ==> s[k] != ':'
    ensures i == j
  {}

  lemma SplitAtLastColon(a: string, p: string, b: string, q: string)
    requires a + ":" + p == b + ":" + q && ':' !in p && ':' !in q
    ensures a == b && p == q
  {
    var s := a + ":" + p;
    forall k | |a| < k < |s| ensures s[k] != ':' { assert s[k] == p[k - |a| - 1]; }
    forall k | |b| < k < |s| ensures s[k] != ':' { assert s[k] == q[k - |b| - 1]; }
    LastColonIsOne(s, |a|, |b|);
    assert a == s[..|a|] && b == s[..|b|] && p == s[|a| + 1..] && q == s[|b| + 1..];
  }

  /** Tenant ids may contain colons; prospect ids (`pr_` and hexadecimal digits) do not. */
  lemma KeyIsInjective(t: string, p: Id, u: string, q: Id)
    requires ':' !in p && ':' !in q && Key(t, p) == Key(u, q)
    ensures t == u && p == q
  {
    var prefix := "nova-prospect:";
    assert (prefix + t + ":" + p)[|prefix|..] == t + ":" + p;
    assert (prefix + u + ":" + q)[|prefix|..] == u + ":" + q;
    SplitAtLastColon(t, p, u, q);
  }

  // ----- the server

  datatype Promoted = Promoted(ids: CrmIds, already: bool)

  /** Promotions by key, and every creation in order. */
  datatype CrmState = CrmState(byKey: map<string, CrmIds>, created: seq<(string, CrmIds)>)

  /** A server that honours the key: the first request creates, later ones return the first promotion. */
  function Receive(crm: CrmState, key: string, drawn: CrmIds): (CrmState, Promoted) {
    if key in crm.byKey then (crm, Promoted(crm.byKey[key], true))
    else (CrmState(crm.byKey[key := drawn], crm.created + [(key, drawn)]), Promoted(drawn, false))
  }

  /** What can happen to a reply on its way: it fails for the transport, or arrives without the required fields. */
  datatype Spoil = Fails(trouble: Trouble) | Hollow

  /** What the network does with one attempt: whether the request arrives, the ids the server would draw, and what
      spoils the reply, if anything. */
  datatype Fate = Fate(arrives: bool, drawn: CrmIds, spoiled: Option<Spoil>)

  function After(crm: CrmState, key: string, f: Fate): CrmState {
    if f.arrives then Receive(crm, key, f.drawn).0 else crm
  }

  function Spoiled(r: Reply<Option<Promoted>>, how: Option<Spoil>): Reply<Option<Promoted>> {
    match how
    case None => r
    case Some(Fails(trouble)) => Trouble(trouble)
    case Some(Hollow) => Body(None)
  }

  function Seen(crm: CrmState, key: string, f: Fate): Reply<Option<Promoted>> {
    Spoiled(if f.arrives then Body(Some(Receive(crm, key, f.drawn).1)) else Trouble(NoConnection), f.spoiled)
  }

  function AfterAll(crm: CrmState, key: string, fates: seq<Fate>): CrmState {
    if fates == [] then crm else After(AfterAll(crm, key, fates[..|fates| - 1]), key, fates[|fates| - 1])
  }

  /** The replies the client sees when these attempts are made one after another. */
  function SeenAll(crm: CrmState, key: string, fates: seq<Fate>): (r: seq<Reply<Option<Promoted>>>)
    ensures |r| == |fates|
  {
    if fates == [] then []
    else SeenAll(crm, key, fates[..|fates| - 1])
         + [Seen(AfterAll(crm, key, fates[..|fates| - 1]), key, fates[|fates| - 1])]
  }

  // ----- the client

  const PROMOTION_RETRY: RetryPolicy := RetryPolicy(3, 0.25, 2.0)

  class Server {
    var state: CrmState

    constructor (initial: CrmState)
      ensures state == initial
    {
      state := initial;
    }

    /** One request and what comes back of it. */
    method Attempt(key: string, f: Fate) returns (r: Reply<Option<Promoted>>)
      modifies this
      ensures state == After(old(state), key, f) && r == Seen(old(state), key, f)
    {
      if f.arrives {
        var answer;
        if key in state.byKey {
          answer := Promoted(state.byKey[key], true);
        } else {
          state := CrmState(state.byKey[key := f.drawn], state.created + [(key, f.drawn)]);
          answer := Promoted(f.drawn, false);
        }
        r := Body(Some(answer));
      } else {
        r := Trouble(NoConnection);
      }
      r := Spoiled(r, f.spoiled);
    }

    /** `request_json`: attempts until a reply is not retryable or the attempts are used up, sleeping in between. */
    method RequestJson(key: string, policy: RetryPolicy, fates: nat -> Fate)
      returns (r: Reply<Option<Promoted>>, sends: nat, slept: seq<real>)
      modifies this
      ensures state == AfterAll(old(state), key, Tries(fates, sends))
      ensures Ends(policy, SeenAll(old(state), key, Tries(fates, sends)))
      ensures r == SeenAll(old(state), key, Tries(fates, sends))[sends - 1]
      ensures slept == Delays(policy, sends - 1)
    {
      ghost var before := state;
      r := Trouble(NoConnection);
      sends, slept := 0, [];
      var more := true;
      while more
        invariant 0 <= sends && |slept| == (if more then sends else sends - 1) && (more ==> sends < policy.Most())
        invariant sends <= policy.Most()
        invariant state == AfterAll(before, key, Tries(fates, sends))
        invariant forall i :: 0 <= i < |slept| ==> Retryable(SeenAll(before, key, Tries(fates, sends))[i])
        invariant slept == Delays(policy, |slept|)
        invariant !more ==> Ends(policy, SeenAll(before, key, Tries(fates, sends)))
                            && r == SeenAll(before, key, Tries(fates, sends))[sends - 1]
        decreases more, policy.Most() - sends
      {
        TriesStep(before, key, fates, sends);
        r := Attempt(key, fates(sends + 1));
        sends := sends + 1;
        if !Retryable(r) || sends >= policy.attempts {
          more := false;
        } else {
          slept := slept + [policy.DelayFor(sends)];
        }
      }
    }

    /** `SalesOSCrmClient.promote_prospect`: one logical promotion under its stable key. */
    method PromoteProspect(configured: bool, tenant: string, pid: Id, fates: nat -> Fate) returns (outcome: CrmOutcome)
      modifies this
      ensures (state, outcome) == Called(old(state), configured, tenant, pid, fates)
    {
      if !configured { return CrmUnavailable; }
      ghost var before := state;
      var r, sends, slept := RequestJson(Key(tenant, pid), PROMOTION_RETRY, fates);
      EndsOnce(before, Key(tenant, pid), PROMOTION_RETRY, fates, sends);
      outcome := Classify(r);
    }
  }

  function Tries(fates: nat -> Fate, n: nat): (r: seq<Fate>)
    ensures |r| == n
  {
    seq(n, i requires 0 <= i < n => fates(i + 1))
  }

  lemma TriesStep(crm: CrmState, key: string, fates: nat -> Fate, n: nat)
    ensures AfterAll(crm, key, Tries(fates, n + 1)) == After(AfterAll(crm, key, Tries(fates, n)), key, fates(n + 1))
    ensures SeenAll(crm, key, Tries(fates, n + 1))
      == SeenAll(crm, key, Tries(fates, n)) + [Seen(AfterAll(crm, key, Tries(fates, n)), key, fates(n + 1))]
  {
    assert Tries(fates, n + 1)[..n] == Tries(fates, n);
  }

  function Classify(r: Reply<Option<Promoted>>): CrmOutcome {
    match r
    case Body(Some(Promoted(ids, already))) => CrmPromoted(ids, already)
    case Body(None) => CrmRejected
    case Trouble(HttpStatus(_)) => CrmRejected
    case Trouble(Broken) => CrmCrashed
    case Trouble(_) => CrmUnavailable
  }

  /** Ids mean promoted; an answer without them or an error status means rejected; no answer, or one that cannot be
      read, means unavailable; anything else is a crash. */
  lemma ClassifiedBy(r: Reply<Option<Promoted>>)
    ensures Classify(r).CrmPromoted? <==> r.Body? && r.value.Some?
    ensures Classify(r).CrmPromoted? ==> Classify(r) == CrmPromoted(r.value.value.ids, r.value.value.already)
    ensures Classify(r) == CrmRejected <==> r == Body(None) || (r.Trouble? && r.trouble.HttpStatus?)
    ensures Classify(r) == CrmUnavailable <==> r.Trouble? && r.trouble in {NoConnection, Unreadable, Unusable}
  {}

  /** How many attempts an exchange takes. */
  ghost function Sends(crm: CrmState, key: string, policy: RetryPolicy, fates: nat -> Fate, from: nat): (n: nat)
    requires 1 <= from <= policy.Most()
    ensures from <= n <= policy.Most()
    decreases policy.Most() - from
  {
    if !Retryable(SeenAll(crm, key, Tries(fates, from))[from - 1]) || from == policy.Most() then from
    else Sends(crm, key, policy, fates, from + 1)
  }

  lemma {:induction false} SeenPrefix(crm: CrmState, key: string, fates: nat -> Fate, m: nat, n: nat)
    requires m <= n
    ensures SeenAll(crm, key, Tries(fates, m)) == SeenAll(crm, key, Tries(fates, n))[..m]
  {
    if m < n {
      TriesStep(crm, key, fates, n - 1);
      SeenPrefix(crm, key, fates, m, n - 1);
    }
  }

  /** The number of attempts is determined by the fates: there is no other place to stop. */
  lemma EndsOnce(crm: CrmState, key: string, policy: RetryPolicy, fates: nat -> Fate, n: nat)
    requires Ends(policy, SeenAll(crm, key, Tries(fates, n)))
    ensures n == Sends(crm, key, policy, fates, 1)
  {
    EndsFrom(crm, key, policy, fates, n, 1);
  }

  lemma {:induction false} EndsFrom(crm: CrmState, key: string, policy: RetryPolicy, fates: nat -> Fate, n: nat,
                                    from: nat)
    requires 1 <= from <= n && Ends(policy, SeenAll(crm, key, Tries(fates, n)))
    ensures n == Sends(crm, key, policy, fates, from)
    decreases n - from
  {
    SeenPrefix(crm, key, fates, from, n);
    if from < n {
      assert Retryable(SeenAll(crm, key, Tries(fates, n))[from - 1]);
      EndsFrom(crm, key, policy, fates, n, from + 1);
    }
  }

  /** The state of the server and the outcome for the client after one logical promotion. */
  ghost function Called(crm: CrmState, configured: bool, tenant: string, pid: Id, fates: nat -> Fate): (CrmState,
                        CrmOutcome) {
    if !configured then (crm, CrmUnavailable)
    else
      var key := Key(tenant, pid);
      var n := Sends(crm, key, PROMOTION_RETRY, fates, 1);
      (AfterAll(crm, key, Tries(fates, n)), Classify(SeenAll(crm, key, Tries(fates, n))[n - 1]))
  }

  // ----- what holds however the network behaves

  lemma {:induction false} ServerOnlyGrows(crm: CrmState, key: string, fates: seq<Fate>)
    ensures crm.byKey.Keys <= AfterAll(crm, key, fates).byKey.Keys <= crm.byKey.Keys + {key}
    ensures forall k :: k in crm.byKey ==> AfterAll(crm, key, fates).byKey[k] == crm.byKey[k]
  {
    if fates != [] { ServerOnlyGrows(crm, key, fates[..|fates| - 1]); }
  }

  /** Each key is created at most once, with the ids it is known by. */
  ghost predicate OncePerKey(crm: CrmState) {
    && (forall i, j :: 0 <= i < j < |crm.created| ==> crm.created[i].0 != crm.created[j].0)
    && (forall i :: 0 <= i < |crm.created| ==>
          crm.created[i].0 in crm.byKey && crm.byKey[crm.created[i].0] == crm.created[i].1)
  }

  lemma {:induction false} StaysOncePerKey(crm: CrmState, key: string, fates: seq<Fate>)
    requires OncePerKey(crm)
    ensures OncePerKey(AfterAll(crm, key, fates))
  {
    if fates != [] { StaysOncePerKey(crm, key, fates[..|fates| - 1]); }
  }

  /** If any attempt of an exchange arrives, the server ends up knowing the key, whether the client hears of it or not;
      any body with ids that the client sees carries the ids the server keeps. */
  lemma {:induction false} SeenIsKept(crm: CrmState, key: string, fates: seq<Fate>, i: nat)
    requires i < |fates|
    ensures fates[i].arrives ==> key in AfterAll(crm, key, fates).byKey
    ensures SeenAll(crm, key, fates)[i].Body? && SeenAll(crm, key, fates)[i].value.Some? ==>
      key in AfterAll(crm, key, fates).byKey
      && AfterAll(crm, key, fates).byKey[key] == SeenAll(crm, key, fates)[i].value.value.ids
  {
    var n := |fates| - 1;
    if i < n {
      SeenIsKept(crm, key, fates[..n], i);
    }
  }

  lemma CalledFacts(crm: CrmState, configured: bool, tenant: string, pid: Id, fates: nat -> Fate)
    ensures var (after, outcome) := Called(crm, configured, tenant, pid, fates);
      && (forall k :: k in crm.byKey ==> k in after.byKey && after.byKey[k] == crm.byKey[k])
      && (OncePerKey(crm) ==> OncePerKey(after))
      && (outcome.CrmPromoted? ==> Key(tenant, pid) in after.byKey && after.byKey[Key(tenant, pid)] == outcome.ids)
  {
    if configured {
      var key := Key(tenant, pid);
      var n := Sends(crm, key, PROMOTION_RETRY, fates, 1);
      ServerOnlyGrows(crm, key, Tries(fates, n));
      if OncePerKey(crm) { StaysOncePerKey(crm, key, Tries(fates, n)); }
      SeenIsKept(crm, key, Tries(fates, n), n - 1);
    }
  }

  /** One promotion sends at most three requests and sleeps at most four seconds. */
  lemma PromotionIsBounded(crm: CrmState, key: string, fates: nat -> Fate)
    ensures var n := Sends(crm, key, PROMOTION_RETRY, fates, 1);
      1 <= n <= 3 && Sum(Delays(PROMOTION_RETRY, n - 1)) <= 4.0
  {
    SleepIsBounded(PROMOTION_RETRY, Sends(crm, key, PROMOTION_RETRY, fates, 1) - 1);
  }

  /** For any policy: at most max(1, attempts) requests, and at most the cap of sleep between each two. */
  lemma ExchangeIsBounded(crm: CrmState, key: string, policy: RetryPolicy, fates: nat -> Fate)
    requires policy.cap >= 0.0
    ensures var n := Sends(crm, key, policy, fates, 1);
      && n <= (if policy.attempts < 1 then 1 else policy.attempts)
      && Sum(Delays(policy, n - 1)) <= (policy.Most() - 1) as real * policy.cap
  {
    var n := Sends(crm, key, policy, fates, 1);
    SleepIsBounded(policy, n - 1);
    var spare := (policy.Most() - n) as real;
    assert (policy.Most() - 1) as real == (n - 1) as real + spare;
    assert (policy.Most() - 1) as real * policy.cap == (n - 1) as real * policy.cap + spare * policy.cap;
    assert spare * policy.cap >= 0.0;
  }
}
