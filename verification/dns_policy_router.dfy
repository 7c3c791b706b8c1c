/**
 * The policy router (`DnsPolicyRouter`, src/dns/dns_policy_router.cpp): an ordered list of
 * rules over names. The query service holds it unchanged, so it is a value here.
 */
module PolicyRouting {
  import opened Core
  import opened Names

  datatype RuleKind = Exact | Suffix | Keyword

  /** `group` is the upstream group that the rule sends its names to. */
  datatype Rule = Rule(kind: RuleKind, value: string, group: Bytes)

  datatype Router = Router(defaultUpstream: Bytes, rules: seq<Rule>)

  predicate Contains(name: string, value: string) {
    value <= name || (name != [] && Contains(name[1..], value))
  }

  /** `matches`, for a normalized name. */
  predicate Matches(rule: Rule, name: string) {
    var value := Normalize(rule.value);
    match rule.kind
    case Exact => name == value
    case Suffix =>
      name == value
      || (|name| > |value| && name[|name| - |value|..] == value && name[|name| - |value| - 1] == '.')
    case Keyword => Contains(name, value)
  }

  lemma {:induction false} ContainsIff(name: string, value: string)
    ensures Contains(name, value) <==> exists before: string, after: string :: name == before + value + after
  {
    if value <= name {
      assert name == [] + value + name[|value|..];
    } else if name != [] {
      ContainsIff(name[1..], value);
      if Contains(name[1..], value) {
        var before: string, after: string :| name[1..] == before + value + after;
        assert name == ([name[0]] + before) + value + after;
      }
      if before: string, after: string :| name == before + value + after {
        assert before == [] ==> name == value + after;
        assert name[1..] == before[1..] + value + after;
      }
    } else {
      assert forall before: string, after: string {:trigger before + value + after} :: |before + value + after| >= |value|;
    }
  }

  /** An exact rule matches its name, a suffix rule also what ends in a dot and its name, a keyword rule whatever holds its name. */
  lemma MatchesIff(rule: Rule, name: string)
    ensures var value := Normalize(rule.value);
      && (rule.kind == Exact ==> (Matches(rule, name) <==> name == value))
      && (rule.kind == Suffix ==> (Matches(rule, name) <==> name == value || exists before: string :: name == before + "." + value))
      && (rule.kind == Keyword ==> (Matches(rule, name) <==> exists before: string, after: string :: name == before + value + after))
  {
    var value := Normalize(rule.value);
    ContainsIff(name, value);
    if rule.kind == Suffix && |name| > |value| {
      var n := |name| - |value| - 1;
      assert name == name[..n] + [name[n]] + name[n + 1..];
      if before: string :| name == before + "." + value {
        assert |before| == n && name[n] == '.' && name[n + 1..] == value;
      }
    }
  }

  function FirstMatch(rules: seq<Rule>, name: string): (i: nat)
    ensures i <= |rules|
  {
    if rules == [] || Matches(rules[0], name) then 0 else 1 + FirstMatch(rules[1..], name)
  }

  /** `select`: where a name is sent. */
  function SelectGroup(router: Router, name: string): Bytes {
    var i := FirstMatch(router.rules, Normalize(name));
    if i < |router.rules| then router.rules[i].group else router.defaultUpstream
  }

  /** Rule `i` is the first one that matches, or there is none and `i` is behind the last one. */
  predicate IsFirst(rules: seq<Rule>, i: nat, name: string) {
    i <= |rules| && (i < |rules| ==> Matches(rules[i], name)) && forall j: nat :: j < i ==> !Matches(rules[j], name)
  }

  lemma {:induction false} FirstMatchIsFirst(rules: seq<Rule>, name: string)
    ensures IsFirst(rules, FirstMatch(rules, name), name)
  {
    if rules != [] && !Matches(rules[0], name) {
      FirstMatchIsFirst(rules[1..], name);
      forall j: nat | j < FirstMatch(rules, name) ensures !Matches(rules[j], name) {
        if j > 0 {
          assert rules[1..][j - 1] == rules[j];
        }
      }
    }
  }

  /** A name is sent where the first rule that matches it says, or to the default upstream, however it is spelled. */
  lemma FirstRuleDecides(router: Router, name: string, other: string)
    requires Normalize(name) == Normalize(other)
    ensures SelectGroup(router, name) == SelectGroup(router, other) == SelectGroup(router, Normalize(name))
    ensures forall i: nat :: IsFirst(router.rules, i, Normalize(name)) ==>
      SelectGroup(router, name) == if i < |router.rules| then router.rules[i].group else router.defaultUpstream
  {
    NormalizedTwice(name);
    FirstMatchIsFirst(router.rules, Normalize(name));
  }

  method Select(router: Router, name: string) returns (group: Bytes)
    ensures group == SelectGroup(router, name)
  {
    var normalized := Normalize(name);
    assert router.rules[0..] == router.rules;
    for i := 0 to |router.rules|
      invariant FirstMatch(router.rules, normalized) == i + FirstMatch(router.rules[i..], normalized)
    {
      assert router.rules[i..][1..] == router.rules[i + 1..];
      if Matches(router.rules[i], normalized) {
        return router.rules[i].group;
      }
    }
    return router.defaultUpstream;
  }
}
