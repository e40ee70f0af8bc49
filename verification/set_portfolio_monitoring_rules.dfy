/** The monitoring-rules request (lib/creditsafe/request/set_portfolio_monitoring_rules.rb):
    one empty Rule element per rule, with the rules themselves passed as the EventCode
    attribute and two attributes fixed to "true". */
module SetPortfolioMonitoringRules {
  import opened Wrappers
  import opened Hashes
  import Namespace

  const PortfolioIdKey := Str(Namespace.Qualified(Namespace.Oper, "portfolioId"))
  const NewRulesKey := Str(Namespace.Qualified(Namespace.Oper, "newRules"))
  const RuleKey := Str(Namespace.Qualified(Namespace.Dat, "Rule"))
  const AttributesKey := Sym("attributes!")
  const EnabledKey := Sym("Enabled")
  const EventCodeKey := Sym("EventCode")
  const MatchAllConditionsKey := Sym("MatchAllConditions")

  /** Every item is an empty hash. */
  predicate AllEmptyHashes(items: seq<Value>)
  {
    forall i :: 0 <= i < |items| ==> items[i] == Hash([])
  }

  /** The attributes attached to the Rule elements. */
  function RuleAttributes(rules: seq<Value>): Value
  {
    Hash([(EnabledKey, Str("true")), (EventCodeKey, List(rules)), (MatchAllConditionsKey, Str("true"))])
  }

  /** `message`: collect one empty hash per rule, then build the payload around it. */
  method Message(portfolioId: Value, rules: seq<Value>) returns (m: Value)
    ensures m.Hash? && Keys(m.entries) == [PortfolioIdKey, NewRulesKey]
    ensures Lookup(m.entries, PortfolioIdKey) == Some(portfolioId)
    ensures FetchPath(m, [NewRulesKey, RuleKey]).Success?
    ensures var ruleList := FetchPath(m, [NewRulesKey, RuleKey]).value;
      ruleList.List? && |ruleList.items| == |rules| && AllEmptyHashes(ruleList.items)
    ensures FetchPath(m, [NewRulesKey, AttributesKey, RuleKey]) == Success(RuleAttributes(rules))
    ensures var newRules := FetchPath(m, [NewRulesKey]);
      newRules.Success? && newRules.value.Hash? && Keys(newRules.value.entries) == [RuleKey, AttributesKey]
    ensures var attrs := FetchPath(m, [NewRulesKey, AttributesKey]);
      attrs.Success? && attrs.value.Hash? && Keys(attrs.value.entries) == [RuleKey]
  {
    var emptyArray: seq<Value> := [];
    var i := 0;
    while i < |rules|
      invariant 0 <= i <= |rules|
      invariant |emptyArray| == i
      invariant AllEmptyHashes(emptyArray)
    {
      emptyArray := emptyArray + [Hash([])];
      i := i + 1;
    }
    m := Payload(portfolioId, emptyArray, rules);
    PayloadPaths(portfolioId, emptyArray, rules);
  }

  /** The payload's element paths: the portfolio id, the Rule list and the Rule attributes. */
  lemma PayloadPaths(portfolioId: Value, emptyArray: seq<Value>, rules: seq<Value>)
    ensures var m := Payload(portfolioId, emptyArray, rules);
      && Keys(m.entries) == [PortfolioIdKey, NewRulesKey]
      && Lookup(m.entries, PortfolioIdKey) == Some(portfolioId)
      && FetchPath(m, [NewRulesKey, RuleKey]) == Success(List(emptyArray))
      && FetchPath(m, [NewRulesKey, AttributesKey, RuleKey]) == Success(RuleAttributes(rules))
      && FetchPath(m, [NewRulesKey]) == Success(NewRules(emptyArray, rules))
      && FetchPath(m, [NewRulesKey, AttributesKey]) == Success(Hash([(RuleKey, RuleAttributes(rules))]))
  {
    var m := Payload(portfolioId, emptyArray, rules);
    var newRules := NewRules(emptyArray, rules);
    assert PortfolioIdKey.s[5] != NewRulesKey.s[5];
    assert Keys(m.entries) == [PortfolioIdKey, NewRulesKey];
    assert m.entries[1..] == [(NewRulesKey, newRules)];
    LookupStored(m.entries, 1);
    assert Fetch(m, NewRulesKey) == Success(newRules);
    assert [NewRulesKey, RuleKey][1..] == [RuleKey];
    assert [NewRulesKey, AttributesKey, RuleKey][1..] == [AttributesKey, RuleKey];
    assert [NewRulesKey][1..] == [];
    assert [NewRulesKey, AttributesKey][1..] == [AttributesKey];
    NewRulesPaths(emptyArray, rules);
  }

  /** Inside newRules: exactly the Rule list and its attributes, and the attributes hold
      exactly the Rule attribute hash. */
  lemma NewRulesPaths(emptyArray: seq<Value>, rules: seq<Value>)
    ensures Keys(NewRules(emptyArray, rules).entries) == [RuleKey, AttributesKey]
    ensures FetchPath(NewRules(emptyArray, rules), [AttributesKey]) == Success(Hash([(RuleKey, RuleAttributes(rules))]))
    ensures FetchPath(NewRules(emptyArray, rules), [RuleKey]) == Success(List(emptyArray))
    ensures FetchPath(NewRules(emptyArray, rules), [AttributesKey, RuleKey]) == Success(RuleAttributes(rules))
  {
    var newRules := NewRules(emptyArray, rules);
    var attrs := Hash([(RuleKey, RuleAttributes(rules))]);
    assert Keys(newRules.entries) == [RuleKey, AttributesKey];
    assert Keys(attrs.entries) == [RuleKey];
    assert newRules.entries[1..] == [(AttributesKey, attrs)];
    assert Fetch(newRules, RuleKey) == Success(List(emptyArray));
    LookupStored(newRules.entries, 1);
    assert Fetch(newRules, AttributesKey) == Success(attrs);
    assert Fetch(attrs, RuleKey) == Success(RuleAttributes(rules));
    assert [RuleKey][1..] == [];
    assert [AttributesKey][1..] == [];
    assert [AttributesKey, RuleKey][1..] == [RuleKey];
    assert FetchPath(attrs, [RuleKey]) == Success(RuleAttributes(rules));
  }

  function NewRules(emptyArray: seq<Value>, rules: seq<Value>): Value
  {
    Hash([(RuleKey, List(emptyArray)), (AttributesKey, Hash([(RuleKey, RuleAttributes(rules))]))])
  }

  function Payload(portfolioId: Value, emptyArray: seq<Value>, rules: seq<Value>): Value
  {
    Hash([(PortfolioIdKey, portfolioId), (NewRulesKey, NewRules(emptyArray, rules))])
  }
}
