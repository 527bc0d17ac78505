/**
 * The rate-limiting middleware: every enabled rule whose path pattern matches is charged in turn
 * until one is exceeded.  Each charge is one increment in the Redis store.
 */
module RateLimiter {
  import opened Prelude
  import opened RateLimit

  datatype Dimension = Ip | Token | Global

  datatype Rule = Rule(
    name: string, pathPattern: string, maxRequests: nat, windowMs: Millis, dimension: Dimension, enabled: bool)

  /** Who asks: the client address and the bearer token, if any. */
  datatype Caller = Caller(ip: string, token: Option<string>)

  /** Clock reading of the client and run time of the script, for one increment. */
  datatype Clock = Clock(now: int, at: int)

  datatype Verdict = Passed | Limited(rule: Rule, retryAfterSeconds: nat)

  datatype RuleStats = RuleStats(hits: nat, rejected: nat)

  predicate MatchPath(pattern: string, path: string) {
    if pattern == "*" then true
    else if |pattern| >= 2 && pattern[|pattern| - 2..] == "/*" then
      var prefix := pattern[..|pattern| - 2];
      path == prefix || StartsWith(path, prefix + "/")
    else path == pattern
  }

  // A slash-star pattern covers its prefix and everything below it, never a sibling that starts alike.
  lemma SubtreePattern(prefix: string, path: string)
    ensures MatchPath(prefix + "/*", path) <==>
            path == prefix || exists rest: string :: path == prefix + "/" + rest
  {
    var pattern := prefix + "/*";
    assert pattern[|pattern| - 2..] == "/*" && pattern[..|pattern| - 2] == prefix;
    assert |pattern| != |"*"|;
    if StartsWith(path, prefix + "/") {
      assert path == prefix + "/" + path[|prefix| + 1..];
    }
  }

  /** Any other pattern covers every path or just its own. */
  lemma OtherPatterns(pattern: string, path: string)
    ensures MatchPath("*", path)
    ensures pattern != "*" && !EndsWith(pattern, "/*") ==> (MatchPath(pattern, path) <==> path == pattern)
  {
  }

  function Identifier(rule: Rule, caller: Caller): string {
    match rule.dimension
    case Ip => caller.ip
    case Token => (if caller.token.Some? then caller.token.value else "anonymous")
    case Global => "global"
  }

  function KeyText(name: string, identifier: string): string {
    "global:" + name + ":" + identifier
  }

  function BuildKey(rule: Rule, caller: Caller): string {
    KeyText(rule.name, Identifier(rule, caller))
  }

  /** A rule name that the text of the key can be cut into, other than the one it was made of. */
  lemma NameInKey(name: string, identifier: string, name': string, identifier': string)
    requires KeyText(name, identifier) == KeyText(name', identifier') && |name| < |name'|
    ensures StartsWith(name', name + ":")
  {
    var text := KeyText(name, identifier);
    assert name + ":" == text[7..7 + |name| + 1];
    assert name' == text[7..7 + |name'|];
  }

  /** Two names can share a counter exactly if they are equal or one continues the other after a colon. */
  lemma NamesShareACounter(name: string, name': string)
    ensures (exists i, i' :: KeyText(name, i) == KeyText(name', i'))
            <==> name == name' || StartsWith(name, name' + ":") || StartsWith(name', name + ":")
  {
    forall i, i' | KeyText(name, i) == KeyText(name', i')
      ensures name == name' || StartsWith(name, name' + ":") || StartsWith(name', name + ":")
    {
      if |name| < |name'| {
        NameInKey(name, i, name', i');
      } else if |name| > |name'| {
        NameInKey(name', i', name, i);
      } else {
        assert name == KeyText(name, i)[7..7 + |name|] == KeyText(name', i')[7..7 + |name|] == name';
      }
    }
    if name == name' {
      assert KeyText(name, "") == KeyText(name', "");
    } else if StartsWith(name, name' + ":") {
      assert KeyText(name, "") == KeyText(name', name[|name'| + 1..] + ":");
    } else if StartsWith(name', name + ":") {
      assert KeyText(name, name'[|name| + 1..] + ":") == KeyText(name', "");
    }
  }

  /** Rules whose names hold no colon share a counter exactly for equal names and equal identifiers. */
  lemma CountersAreSeparate(rule: Rule, caller: Caller, rule': Rule, caller': Caller)
    requires ':' !in rule.name && ':' !in rule'.name
    ensures BuildKey(rule, caller) == BuildKey(rule', caller')
            <==> rule.name == rule'.name && Identifier(rule, caller) == Identifier(rule', caller')
  {
    var key, key' := BuildKey(rule, caller), BuildKey(rule', caller');
    if key == key' {
      NamesShareACounter(rule.name, rule'.name);
      var a, b := rule.name + ":", rule'.name + ":";
      assert a[|rule.name|] == b[|rule'.name|] == ':';
      assert Identifier(rule, caller) == key[7 + |rule.name| + 1..];
      assert Identifier(rule', caller') == key'[7 + |rule'.name| + 1..];
    }
  }

  predicate Applies(rule: Rule, path: string) {
    rule.enabled && MatchPath(rule.pathPattern, path)
  }

  function Matching(rules: seq<Rule>, path: string): seq<Rule> {
    if rules == [] then []
    else (if Applies(rules[0], path) then [rules[0]] else []) + Matching(rules[1..], path)
  }

  lemma {:induction false} MatchingAppend(rules: seq<Rule>, more: seq<Rule>, path: string)
    ensures Matching(rules + more, path) == Matching(rules, path) + Matching(more, path)
  {
    if rules == [] {
      assert rules + more == more;
    } else {
      var first := if Applies(rules[0], path) then [rules[0]] else [];
      assert (rules + more)[0] == rules[0] && (rules + more)[1..] == rules[1..] + more;
      MatchingAppend(rules[1..], more, path);
      assert Matching(rules + more, path) == first + (Matching(rules[1..], path) + Matching(more, path));
    }
  }

  /** The rules charged are those that are enabled and cover the path, each once and in their order. */
  lemma MatchingExactly(rules: seq<Rule>, rule: Rule, more: seq<Rule>, path: string)
    ensures Matching(rules + [rule] + more, path) ==
            Matching(rules, path)
            + (if rule.enabled && MatchPath(rule.pathPattern, path) then [rule] else [])
            + Matching(more, path)
  {
    MatchingAppend(rules + [rule], more, path);
    MatchingAppend(rules, [rule], path);
    assert [rule][1..] == [];
  }

  function Charge(rule: Rule, caller: Caller, clock: Clock): Request {
    Request(BuildKey(rule, caller), rule.windowMs, clock.now, clock.at)
  }

  function Charges(rules: seq<Rule>, caller: Caller, clocks: seq<Clock>): seq<Request>
    requires |rules| == |clocks|
  {
    if rules == [] then [] else [Charge(rules[0], caller, clocks[0])] + Charges(rules[1..], caller, clocks[1..])
  }

  lemma {:induction false} ChargesSnoc(rules: seq<Rule>, caller: Caller, clocks: seq<Clock>, rule: Rule, clock: Clock)
    requires |rules| == |clocks|
    ensures Charges(rules + [rule], caller, clocks + [clock]) ==
            Charges(rules, caller, clocks) + [Charge(rule, caller, clock)]
    decreases |rules|
  {
    if rules != [] {
      assert (rules + [rule])[1..] == rules[1..] + [rule] && (clocks + [clock])[1..] == clocks[1..] + [clock];
      ChargesSnoc(rules[1..], caller, clocks[1..], rule, clock);
    }
  }

  function StatsOf(stats: map<string, RuleStats>, name: string): RuleStats {
    if name in stats then stats[name] else RuleStats(0, 0)
  }

  /** The tallies after one charge of a rule. */
  function CountOne(stats: map<string, RuleStats>, name: string, rejected: bool): map<string, RuleStats> {
    var s := StatsOf(stats, name);
    stats[name := RuleStats(s.hits + 1, s.rejected + if rejected then 1 else 0)]
  }

  /** The tallies after charging rules none of which rejected. */
  function CountAll(stats: map<string, RuleStats>, rules: seq<Rule>): map<string, RuleStats> {
    if rules == [] then stats else CountOne(CountAll(stats, rules[..|rules| - 1]), rules[|rules| - 1].name, false)
  }

  /** How often a rule name occurs among the rules charged. */
  function Named(rules: seq<Rule>, name: string): nat {
    if rules == [] then 0 else Named(rules[..|rules| - 1], name) + if rules[|rules| - 1].name == name then 1 else 0
  }

  /** Tallies grow by the number of charges under each name; only a rejecting charge adds a rejection. */
  lemma {:induction false} TalliesCountCharges(stats: map<string, RuleStats>, rules: seq<Rule>, name: string)
    ensures StatsOf(CountAll(stats, rules), name) ==
            RuleStats(StatsOf(stats, name).hits + Named(rules, name), StatsOf(stats, name).rejected)
    decreases |rules|
  {
    if rules != [] {
      TalliesCountCharges(stats, rules[..|rules| - 1], name);
      TalliesCountCharges(stats, rules[..|rules| - 1], rules[|rules| - 1].name);
    }
  }

  /** A charge that rejects counts as a hit too, and as a rejection of that rule only. */
  lemma RejectionIsCounted(stats: map<string, RuleStats>, rules: seq<Rule>, name: string)
    requires rules != []
    ensures
      var last, before := rules[|rules| - 1].name, StatsOf(stats, name);
      StatsOf(CountOne(CountAll(stats, rules[..|rules| - 1]), last, true), name) ==
      RuleStats(before.hits + Named(rules, name), before.rejected + if name == last then 1 else 0)
  {
    TalliesCountCharges(stats, rules[..|rules| - 1], name);
  }

  // ---------------------------------------------------------------------------------------------
  // Whose requests a counter counts.
  // ---------------------------------------------------------------------------------------------

  /** Two callers are one client to a rule: by address, by token (no token reads "anonymous"), or always. */
  predicate SameClient(rule: Rule, caller: Caller, other: Caller) {
    match rule.dimension
    case Ip => caller.ip == other.ip
    case Token =>
      || caller.token == other.token
      || (caller.token == None && other.token == Some("anonymous"))
      || (caller.token == Some("anonymous") && other.token == None)
    case Global => true
  }

  lemma OneKeyPerClient(rule: Rule, caller: Caller, other: Caller)
    ensures BuildKey(rule, caller) == BuildKey(rule, other) <==> SameClient(rule, caller, other)
  {
    var key, key' := BuildKey(rule, caller), BuildKey(rule, other);
    assert Identifier(rule, caller) == key[7 + |rule.name| + 1..];
    assert Identifier(rule, other) == key'[7 + |rule.name| + 1..];
  }

  /** One charge of a rule for a caller. */
  datatype Use = Use(rule: Rule, caller: Caller, clock: Clock)

  function Requests(uses: seq<Use>): seq<Request> {
    if uses == [] then []
    else
      var u := uses[|uses| - 1];
      Requests(uses[..|uses| - 1]) + [Charge(u.rule, u.caller, u.clock)]
  }

  /** Rule names hold no colon, and no other rule has the name of this one. */
  ghost predicate NameIsItsOwn(rule: Rule, uses: seq<Use>) {
    && ':' !in rule.name
    && forall i :: 0 <= i < |uses| ==>
         ':' !in uses[i].rule.name && (uses[i].rule.name == rule.name ==> uses[i].rule == rule)
  }

  /** The script of each charge runs within one window after its clock was read. */
  ghost predicate PromptUses(uses: seq<Use>) {
    forall i :: 0 <= i < |uses| ==>
      uses[i].clock.now <= uses[i].clock.at <= uses[i].clock.now + uses[i].rule.windowMs
  }

  /** How often the rule was charged for this client in one window. */
  function Own(uses: seq<Use>, rule: Rule, caller: Caller, window: int): nat {
    if uses == [] then 0
    else
      var u := uses[|uses| - 1];
      Own(uses[..|uses| - 1], rule, caller, window) +
      if u.rule == rule && SameClient(rule, caller, u.caller) && u.clock.now / rule.windowMs == window then 1 else 0
  }

  lemma {:induction false} ServedAreOwn(s: State, uses: seq<Use>, rule: Rule, caller: Caller, window: int)
    requires s.hits == [] && NameIsItsOwn(rule, uses)
    ensures Served(Run(s, Requests(uses)).hits, BuildKey(rule, caller), window, rule.windowMs)
            == Own(uses, rule, caller, window)
    decreases |uses|
  {
    if uses != [] {
      var u, before := uses[|uses| - 1], uses[..|uses| - 1];
      ServedAreOwn(s, before, rule, caller, window);
      RunSnoc(s, Requests(before), Charge(u.rule, u.caller, u.clock));
      CountersAreSeparate(rule, caller, u.rule, u.caller);
      OneKeyPerClient(rule, caller, u.caller);
      var s' := Run(s, Requests(before));
      assert Step(s', Charge(u.rule, u.caller, u.clock)).hits[..|s'.hits|] == s'.hits;
    }
  }

  lemma {:induction false} UsesArePrompt(uses: seq<Use>, rule: Rule, caller: Caller)
    requires NameIsItsOwn(rule, uses) && PromptUses(uses)
    ensures PromptRun(Requests(uses), BuildKey(rule, caller), rule.windowMs)
    decreases |uses|
  {
    if uses != [] {
      var u := uses[|uses| - 1];
      UsesArePrompt(uses[..|uses| - 1], rule, caller);
      CountersAreSeparate(rule, caller, u.rule, u.caller);
    }
  }

  /**
   * Main result.  From a store without a counter for the client, and whatever else is charged: the count a
   * charge gets is one more than the charges of that rule for that client in that window.
   */
  lemma CountIsTheClientsOwn(s: State, uses: seq<Use>, rule: Rule, caller: Caller, clock: Clock)
    requires Untouched(s, BuildKey(rule, caller)) && NameIsItsOwn(rule, uses)
    requires PromptUses(uses) && clock.now <= clock.at <= clock.now + rule.windowMs
    ensures RateLimit.Increment(Run(s, Requests(uses)).store, Charge(rule, caller, clock)).count
            == Own(uses, rule, caller, clock.now / rule.windowMs) + 1
  {
    var key := BuildKey(rule, caller);
    UsesArePrompt(uses, rule, caller);
    LimitRun(s, Requests(uses), key, rule.windowMs, 0);
    CounterSurvivesItsWindow(Run(s, Requests(uses)), Charge(rule, caller, clock), key, rule.windowMs);
    ServedAreOwn(s, uses, rule, caller, clock.now / rule.windowMs);
  }

  lemma {:induction false} OwnAppend(uses: seq<Use>, more: seq<Use>, rule: Rule, caller: Caller, window: int)
    ensures Own(uses + more, rule, caller, window) == Own(uses, rule, caller, window) + Own(more, rule, caller, window)
    decreases |more|
  {
    if more == [] {
      assert uses + more == uses;
    } else {
      assert (uses + more)[..|uses + more| - 1] == uses + more[..|more| - 1];
      OwnAppend(uses, more[..|more| - 1], rule, caller, window);
    }
  }

  /** What other clients are charged, at any point and by any rule, changes no count. */
  lemma OtherClientsDoNotCount(
      s: State, uses: seq<Use>, other: Use, more: seq<Use>, rule: Rule, caller: Caller, clock: Clock)
    requires Untouched(s, BuildKey(rule, caller)) && NameIsItsOwn(rule, uses + [other] + more)
    requires PromptUses(uses + [other] + more) && clock.now <= clock.at <= clock.now + rule.windowMs
    requires other.rule != rule || !SameClient(rule, caller, other.caller)
    ensures RateLimit.Increment(Run(s, Requests(uses + [other] + more)).store, Charge(rule, caller, clock)).count
            == RateLimit.Increment(Run(s, Requests(uses + more)).store, Charge(rule, caller, clock)).count
  {
    var window := clock.now / rule.windowMs;
    assert forall i :: 0 <= i < |uses + more| ==> (uses + more)[i] in uses + [other] + more;
    CountIsTheClientsOwn(s, uses + [other] + more, rule, caller, clock);
    CountIsTheClientsOwn(s, uses + more, rule, caller, clock);
    OwnAppend(uses + [other], more, rule, caller, window);
    OwnAppend(uses, [other], rule, caller, window);
    OwnAppend(uses, more, rule, caller, window);
    assert [other][..0] == [];
  }

  lemma ChargeOneMore(s: State, matching: seq<Rule>, caller: Caller, clocks: seq<Clock>, i: nat)
    requires |matching| == |clocks| && i < |matching|
    ensures Run(s, Charges(matching[..i + 1], caller, clocks[..i + 1])) ==
            Step(Run(s, Charges(matching[..i], caller, clocks[..i])), Charge(matching[i], caller, clocks[i]))
  {
    assert matching[..i + 1] == matching[..i] + [matching[i]] && clocks[..i + 1] == clocks[..i] + [clocks[i]];
    ChargesSnoc(matching[..i], caller, clocks[..i], matching[i], clocks[i]);
    RunSnoc(s, Charges(matching[..i], caller, clocks[..i]), Charge(matching[i], caller, clocks[i]));
  }

  /** The charges of one request, rule by rule. */
  function UsesOf(rules: seq<Rule>, caller: Caller, clocks: seq<Clock>): seq<Use>
    requires |rules| == |clocks|
  {
    seq(|rules|, i requires 0 <= i < |rules| => Use(rules[i], caller, clocks[i]))
  }

  lemma UsesSnoc(uses: seq<Use>, rules: seq<Rule>, caller: Caller, clocks: seq<Clock>, k: nat)
    requires |rules| == |clocks| && k < |rules|
    ensures uses + UsesOf(rules[..k + 1], caller, clocks[..k + 1])
            == uses + UsesOf(rules[..k], caller, clocks[..k]) + [Use(rules[k], caller, clocks[k])]
  {
  }

  lemma OneMoreUse(s: State, uses: seq<Use>, u: Use)
    ensures Run(s, Requests(uses + [u])) == Step(Run(s, Requests(uses)), Charge(u.rule, u.caller, u.clock))
  {
    assert (uses + [u])[..|uses|] == uses;
    RunSnoc(s, Requests(uses), Charge(u.rule, u.caller, u.clock));
  }

  lemma {:induction false} ChargesAreUses(
      s: State, uses: seq<Use>, rules: seq<Rule>, caller: Caller, clocks: seq<Clock>, k: nat)
    requires |rules| == |clocks| && k <= |rules|
    ensures Run(Run(s, Requests(uses)), Charges(rules[..k], caller, clocks[..k]))
            == Run(s, Requests(uses + UsesOf(rules[..k], caller, clocks[..k])))
    decreases k
  {
    if k == 0 {
      assert uses + [] == uses;
    } else {
      var before, u := uses + UsesOf(rules[..k - 1], caller, clocks[..k - 1]), Use(rules[k - 1], caller, clocks[k - 1]);
      ChargesAreUses(s, uses, rules, caller, clocks, k - 1);
      ChargeOneMore(Run(s, Requests(uses)), rules, caller, clocks, k - 1);
      UsesSnoc(uses, rules, caller, clocks, k - 1);
      OneMoreUse(s, before, u);
    }
  }

  /**
   * When a request is handled after any others, the charge of each rule is counted as one more than that
   * rule was charged for that client in that window.
   */
  lemma HandledChargeCountsOwn(
      s: State, uses: seq<Use>, rules: seq<Rule>, caller: Caller, clocks: seq<Clock>, k: nat)
    requires |rules| == |clocks| && k < |rules| && Untouched(s, BuildKey(rules[k], caller))
    requires NameIsItsOwn(rules[k], uses + UsesOf(rules[..k], caller, clocks[..k]))
    requires PromptUses(uses + UsesOf(rules[..k], caller, clocks[..k]))
    requires clocks[k].now <= clocks[k].at <= clocks[k].now + rules[k].windowMs
    ensures
      var before := Run(s, Requests(uses));
      var after := Run(before, Charges(rules[..k + 1], caller, clocks[..k + 1]));
      var counted := Own(uses + UsesOf(rules[..k], caller, clocks[..k]), rules[k], caller,
                         clocks[k].now / rules[k].windowMs);
      after.hits != [] && after.hits[|after.hits| - 1].count == counted + 1
  {
    ChargesAreUses(s, uses, rules, caller, clocks, k);
    ChargeOneMore(Run(s, Requests(uses)), rules, caller, clocks, k);
    CountIsTheClientsOwn(s, uses + UsesOf(rules[..k], caller, clocks[..k]), rules[k], caller, clocks[k]);
  }

  class Limiter {
    var state: State
    var stats: map<string, RuleStats>

    constructor ()
      ensures state == State(map[], []) && stats == map[]
    {
      state := State(map[], []);
      stats := map[];
    }

    /** One increment in Redis: the count of this window so far, and the time to its end. */
    method Increment(request: Request) returns (count: nat, resetMs: nat)
      modifies this`state
      ensures state == Step(old(state), request)
      ensures count == state.hits[|old(state).hits|].count
      ensures resetMs == ResetMs(request.now, request.windowMs)
      ensures resetMs >= 1
      ensures WindowOf(request.now + resetMs, request.windowMs) > WindowOf(request.now, request.windowMs)
    {
      var window := request.now / request.windowMs;
      var cell := Script(state.store, RedisKey(request.key, window), request.windowMs * 2, request.at);
      state := State(state.store[RedisKey(request.key, window) := cell], state.hits + [Hit(request, cell.count)]);
      count := cell.count;
      resetMs := Max(0, window * request.windowMs + request.windowMs - request.now);
      WindowBounds(request.now, request.windowMs);
      WindowBounds(request.now + resetMs, request.windowMs);
      if WindowOf(request.now + resetMs, request.windowMs) <= window {
        Scaled(WindowOf(request.now + resetMs, request.windowMs), window, request.windowMs);
      }
    }

    /**
     * Charges the matching rules in turn up to the first that is exceeded.  The caller passes
     * exactly when all were charged and none was exceeded; otherwise exactly the last one charged
     * was.  The store moves by those increments and nothing else, and the tallies count them.
     */
    method ChargeRules(matching: seq<Rule>, caller: Caller, clocks: seq<Clock>)
      returns (verdict: Verdict, ghost charged: nat)
      requires |clocks| == |matching|
      modifies this
      ensures charged <= |matching|
      ensures state == Run(old(state), Charges(matching[..charged], caller, clocks[..charged]))
      ensures Extends(old(state).hits, state.hits, charged)
      ensures verdict.Passed? <==> charged == |matching| && Within(old(state).hits, state.hits, matching, charged)
      ensures verdict.Limited? ==>
                && charged >= 1 && verdict.rule == matching[charged - 1]
                && state.hits[|state.hits| - 1].count > verdict.rule.maxRequests
                && verdict.retryAfterSeconds ==
                   RetryAfterSeconds(ResetMs(clocks[charged - 1].now, verdict.rule.windowMs))
      ensures verdict.Passed? ==> stats == CountAll(old(stats), matching)
      ensures verdict.Limited? ==>
                stats == CountOne(CountAll(old(stats), matching[..charged - 1]), verdict.rule.name, true)
    {
      charged := 0;
      var i := 0;
      assert matching[..0] == [] && clocks[..0] == [];
      while i < |matching|
        invariant 0 <= i == charged <= |matching|
        invariant Charged(old(state), state, matching, caller, clocks, i)
        invariant stats == CountAll(old(stats), matching[..i])
      {
        var rule := matching[i];
        ghost var before := state;
        var count, resetMs := Increment(Charge(rule, caller, clocks[i]));
        ChargedStep(old(state), before, matching, caller, clocks, i);
        CountAllStep(old(stats), matching, i);
        stats := CountOne(stats, rule.name, count > rule.maxRequests);
        charged := charged + 1;
        if count > rule.maxRequests {
          assert matching[..charged - 1] == matching[..i];
          return Limited(rule, RetryAfterSeconds(resetMs)), charged;
        }
        i := i + 1;
      }
      assert matching[..i] == matching && clocks[..i] == clocks;
      return Passed, charged;
    }

    /** One request: the enabled rules whose pattern covers the path, in order, are charged. */
    method Handle(rules: seq<Rule>, path: string, caller: Caller, clocks: seq<Clock>)
      returns (verdict: Verdict, ghost charged: nat)
      requires |clocks| == |Matching(rules, path)|
      modifies this
      ensures charged <= |Matching(rules, path)|
      ensures state == Run(old(state), Charges(Matching(rules, path)[..charged], caller, clocks[..charged]))
      ensures verdict.Passed? <==>
              charged == |Matching(rules, path)| && Within(old(state).hits, state.hits, Matching(rules, path), charged)
      ensures verdict.Limited? ==>
                && charged >= 1 && verdict.rule == Matching(rules, path)[charged - 1]
                && |state.hits| > 0 && state.hits[|state.hits| - 1].count > verdict.rule.maxRequests
                && verdict.retryAfterSeconds ==
                   RetryAfterSeconds(ResetMs(clocks[charged - 1].now, verdict.rule.windowMs))
      ensures verdict.Passed? ==> stats == CountAll(old(stats), Matching(rules, path))
      ensures verdict.Limited? ==>
                stats == CountOne(CountAll(old(stats), Matching(rules, path)[..charged - 1]), verdict.rule.name, true)
    {
      var matching := Filter(rules, path);
      verdict, charged := ChargeRules(matching, caller, clocks);
    }
  }

  /** `more` is `hits` with `n` entries behind it. */
  ghost predicate Extends(hits: seq<Hit>, more: seq<Hit>, n: nat) {
    |more| == |hits| + n && more[..|hits|] == hits
  }

  /** The first `i` hits behind `hits` stayed within their rules' limits. */
  ghost predicate Within(hits: seq<Hit>, more: seq<Hit>, rules: seq<Rule>, i: nat) {
    |hits| + i <= |more| && i <= |rules| && forall k :: 0 <= k < i ==> more[|hits| + k].count <= rules[k].maxRequests
  }

  /** The first `i` matching rules have been charged and none was exceeded. */
  ghost predicate Charged(s0: State, s: State, matching: seq<Rule>, caller: Caller, clocks: seq<Clock>, i: nat)
    requires |matching| == |clocks| && i <= |matching|
  {
    && s == Run(s0, Charges(matching[..i], caller, clocks[..i]))
    && Extends(s0.hits, s.hits, i)
    && Within(s0.hits, s.hits, matching, i)
  }

  lemma ChargedStep(s0: State, s: State, matching: seq<Rule>, caller: Caller, clocks: seq<Clock>, i: nat)
    requires |matching| == |clocks| && i < |matching| && Charged(s0, s, matching, caller, clocks, i)
    ensures
      var s' := Step(s, Charge(matching[i], caller, clocks[i]));
      && s' == Run(s0, Charges(matching[..i + 1], caller, clocks[..i + 1]))
      && Extends(s0.hits, s'.hits, i + 1)
      && Within(s0.hits, s'.hits, matching, i)
      && (s'.hits[|s.hits|].count <= matching[i].maxRequests ==> Within(s0.hits, s'.hits, matching, i + 1))
  {
    ChargeOneMore(s0, matching, caller, clocks, i);
  }

  lemma CountAllStep(stats: map<string, RuleStats>, matching: seq<Rule>, i: nat)
    requires i < |matching|
    ensures CountAll(stats, matching[..i + 1]) == CountOne(CountAll(stats, matching[..i]), matching[i].name, false)
  {
    assert matching[..i + 1][..i] == matching[..i];
  }

  method Filter(rules: seq<Rule>, path: string) returns (matching: seq<Rule>)
    ensures matching == Matching(rules, path)
  {
    matching := [];
    var i := 0;
    assert rules[0..] == rules;
    while i < |rules|
      invariant 0 <= i <= |rules|
      invariant matching + Matching(rules[i..], path) == Matching(rules, path)
    {
      assert rules[i..][1..] == rules[i + 1..];
      if Applies(rules[i], path) {
        matching := matching + [rules[i]];
      }
      i := i + 1;
    }
    assert matching + [] == matching;
  }
}
