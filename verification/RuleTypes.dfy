/** The registries of rule types, proxy-group types and policy kinds. */
module RuleTypes {

  datatype RuleTypeOptions = RuleTypeOptions(takesProvider: bool, supportsNoResolve: bool, logical: bool)

  const PLAIN := RuleTypeOptions(false, false, false)
  const IP_MATCHER := RuleTypeOptions(false, true, false)
  const PROVIDER_MATCHER := RuleTypeOptions(true, true, false)
  const LOGICAL := RuleTypeOptions(false, false, true)

  /** The known rule types and their options; every other string is an unknown type. */
  const RULE_TYPES: map<string, RuleTypeOptions> :=
    map[
      "DOMAIN" := PLAIN, "DOMAIN-SUFFIX" := PLAIN, "DOMAIN-KEYWORD" := PLAIN, "DOMAIN-REGEX" := PLAIN,
      "DOMAIN-WILDCARD" := PLAIN, "GEOSITE" := PLAIN,
      "IP-CIDR" := IP_MATCHER, "IP-CIDR6" := IP_MATCHER, "IP-SUFFIX" := IP_MATCHER, "IP-ASN" := IP_MATCHER,
      "GEOIP" := IP_MATCHER,
      "SRC-GEOIP" := PLAIN, "SRC-IP-CIDR" := PLAIN, "SRC-IP-ASN" := PLAIN, "SRC-IP-SUFFIX" := PLAIN,
      "SRC-PORT" := PLAIN, "DST-PORT" := PLAIN, "IN-PORT" := PLAIN, "IN-TYPE" := PLAIN, "IN-NAME" := PLAIN,
      "IN-USER" := PLAIN, "PROCESS-NAME" := PLAIN, "PROCESS-NAME-WILDCARD" := PLAIN, "PROCESS-PATH" := PLAIN,
      "PROCESS-PATH-WILDCARD" := PLAIN, "PROCESS-NAME-REGEX" := PLAIN, "NETWORK" := PLAIN, "DSCP" := PLAIN,
      "UID" := PLAIN,
      "RULE-SET" := PROVIDER_MATCHER,
      "MATCH" := PLAIN,
      "AND" := LOGICAL, "OR" := LOGICAL, "NOT" := LOGICAL
    ]

  predicate KnownRule(t: string) { t in RULE_TYPES }

  predicate IsMatch(t: string) { t == "MATCH" }

  predicate IsLogical(t: string) { t in RULE_TYPES && RULE_TYPES[t].logical }

  predicate TakesProvider(t: string) { t in RULE_TYPES && RULE_TYPES[t].takesProvider }

  predicate SupportsNoResolve(t: string) { t in RULE_TYPES && RULE_TYPES[t].supportsNoResolve }

  /** The known types, one by one. */
  lemma {:induction false} KnownTypes(t: string)
    ensures KnownRule(t) <==>
            t in {"DOMAIN", "DOMAIN-SUFFIX", "DOMAIN-KEYWORD", "DOMAIN-REGEX", "DOMAIN-WILDCARD", "GEOSITE", "IP-CIDR",
                  "IP-CIDR6", "IP-SUFFIX", "IP-ASN", "GEOIP", "SRC-GEOIP", "SRC-IP-CIDR", "SRC-IP-ASN", "SRC-IP-SUFFIX",
                  "SRC-PORT", "DST-PORT", "IN-PORT", "IN-TYPE", "IN-NAME", "IN-USER", "PROCESS-NAME",
                  "PROCESS-NAME-WILDCARD", "PROCESS-PATH", "PROCESS-PATH-WILDCARD", "PROCESS-NAME-REGEX", "NETWORK",
                  "DSCP", "UID", "RULE-SET", "MATCH", "AND", "OR", "NOT"}
  {
  }

  /** No-resolve is for the matchers of destination addresses and for RULE-SET. */
  lemma {:induction false} NoResolveTypes(t: string)
    ensures SupportsNoResolve(t) <==> t in {"IP-CIDR", "IP-CIDR6", "IP-SUFFIX", "IP-ASN", "GEOIP", "RULE-SET"}
  {
  }

  /** What the registry says about the types the validator treats specially. */
  lemma {:induction false} SpecialTypes(t: string)
    ensures IsLogical(t) <==> t == "AND" || t == "OR" || t == "NOT"
    ensures TakesProvider(t) <==> t == "RULE-SET"
    ensures IsLogical(t) ==> KnownRule(t) && !IsMatch(t) && !SupportsNoResolve(t)
    ensures IsMatch(t) ==> KnownRule(t) && !SupportsNoResolve(t) && !TakesProvider(t)
    ensures TakesProvider(t) ==> !IsMatch(t) && !IsLogical(t)
  {
  }
}
