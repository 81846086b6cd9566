/** The texts that a refused save is answered with. */
module Messages {
  import opened Wrappers
  import opened Drafts

  const MSG_USER_CONFIG_MISSING := "The user has no custom config"
  const MSG_PROVIDER_NAME_TAKEN := "A rule-provider with this name already exists"

  /** Every sentinel that decoding and validation can return has a text. */
  function ValidationMessage(e: Error): string {
    match e
    case GroupNameEmpty => "Enter a proxy-group name"
    case GroupNameTaken => "A proxy-group with this name already exists"
    case GroupUnknownType => "Unknown proxy-group type"
    case GroupNoMembers => "Empty proxy-group"
    case GroupCycle => "Proxy-groups form a cyclic reference"
    case GroupFieldNotAllowed => "This field does not apply to this proxy-group type"
    case BadRef => "Invalid rule/group-member target"
    case GroupRefRange => "Reference to a non-existent group"
    case UnknownRuleType => "Unknown rule type"
    case MatchNotLast => "The MATCH rule must be last"
    case RuleValueRequired => "The rule has no value"
    case RulePayloadNotAllowed => "This rule type does not accept a value"
    case NoResolveUnsupported => "no-resolve does not apply to this rule type"
    case ProviderRefRange => "RULE-SET references a non-existent rule-provider"
    case ChildrenNotAllowed => "Nested rules are allowed only for logical rules (AND/OR/NOT)"
    case NotArity => "NOT must contain exactly one nested rule"
    case LogicalArity => "AND/OR must contain at least two nested rules"
    case MatchChild => "MATCH cannot be used as a nested rule"
    case TargetRequired => "The rule has no target"
    case ChildTarget => "A nested rule must not have a target"
    case ProviderNameEmpty => "Enter a rule-provider name"
    case ProviderBadBehavior => "Unknown rule-provider behavior"
    case ProviderBadFormat => "Unknown rule-provider format"
    case ProviderURLEmpty => "Enter the rule-provider URL"
    case BaseYAMLInvalid => "Invalid YAML — check the syntax"
    case GeneratedKeyPresent => "Remove the generated sections from the YAML"
    case ProfileTitleEmpty => "Enter the profile title (Profile title)"
    case ProfileFilenameEmpty => "Enter the subscription filename"
    case ProfileFilenameInvalid => "The filename must not contain / \\ or control characters"
    case ProfileUpdateIntervalInvalid => "Update interval must be a positive number of hours"
  }

  /** The text that each sentinel is to be answered with. */
  predicate Says(text: string, e: Error) { SaysOfRules(text, e) || SaysOfTheRest(text, e) }

  predicate SaysOfRules(text: string, e: Error) {
    match e
    case BadRef => text == "Invalid rule/group-member target"
    case GroupRefRange => text == "Reference to a non-existent group"
    case UnknownRuleType => text == "Unknown rule type"
    case MatchNotLast => text == "The MATCH rule must be last"
    case RuleValueRequired => text == "The rule has no value"
    case RulePayloadNotAllowed => text == "This rule type does not accept a value"
    case NoResolveUnsupported => text == "no-resolve does not apply to this rule type"
    case ProviderRefRange => text == "RULE-SET references a non-existent rule-provider"
    case ChildrenNotAllowed => text == "Nested rules are allowed only for logical rules (AND/OR/NOT)"
    case NotArity => text == "NOT must contain exactly one nested rule"
    case LogicalArity => text == "AND/OR must contain at least two nested rules"
    case MatchChild => text == "MATCH cannot be used as a nested rule"
    case TargetRequired => text == "The rule has no target"
    case ChildTarget => text == "A nested rule must not have a target"
    case _ => false
  }

  predicate SaysOfTheRest(text: string, e: Error) {
    match e
    case GroupNameEmpty => text == "Enter a proxy-group name"
    case GroupNameTaken => text == "A proxy-group with this name already exists"
    case GroupUnknownType => text == "Unknown proxy-group type"
    case GroupNoMembers => text == "Empty proxy-group"
    case GroupCycle => text == "Proxy-groups form a cyclic reference"
    case GroupFieldNotAllowed => text == "This field does not apply to this proxy-group type"
    case ProviderNameEmpty => text == "Enter a rule-provider name"
    case ProviderBadBehavior => text == "Unknown rule-provider behavior"
    case ProviderBadFormat => text == "Unknown rule-provider format"
    case ProviderURLEmpty => text == "Enter the rule-provider URL"
    case BaseYAMLInvalid => text == "Invalid YAML — check the syntax"
    case GeneratedKeyPresent => text == "Remove the generated sections from the YAML"
    case ProfileTitleEmpty => text == "Enter the profile title (Profile title)"
    case ProfileFilenameEmpty => text == "Enter the subscription filename"
    case ProfileFilenameInvalid => text == "The filename must not contain / \\ or control characters"
    case ProfileUpdateIntervalInvalid => text == "Update interval must be a positive number of hours"
    case _ => false
  }

  lemma {:induction false} MessageSays(e: Error)
    ensures Says(ValidationMessage(e), e)
  {
  }

  /** Which sentinel a text speaks of: its length tells, with one letter where lengths agree. */
  function SentinelOf(text: string): Option<Error> {
    match |text|
    case 17 => if text[16] == 'p' then Some(GroupNoMembers) else Some(UnknownRuleType)
    case 21 => Some(RuleValueRequired)
    case 22 => Some(TargetRequired)
    case 24 => if text[0] == 'E' then Some(GroupNameEmpty) else Some(GroupUnknownType)
    case 26 => Some(ProviderNameEmpty)
    case 27 => if text[26] == 't' then Some(MatchNotLast) else Some(ProviderURLEmpty)
    case 28 => Some(ProviderBadFormat)
    case 30 => Some(ProviderBadBehavior)
    case 31 => if text[30] == 'x' then Some(BaseYAMLInvalid) else Some(ProfileFilenameEmpty)
    case 32 => Some(BadRef)
    case 33 => Some(GroupRefRange)
    case 36 => if text[35] == 'e' then Some(GroupCycle) else Some(ChildTarget)
    case 37 => Some(MatchChild)
    case 38 => Some(RulePayloadNotAllowed)
    case 39 => Some(ProfileTitleEmpty)
    case 40 => Some(NotArity)
    case 43 =>
      if text[42] == 's' then Some(GroupNameTaken)
      else if text[42] == 'e' then Some(NoResolveUnsupported)
      else Some(GeneratedKeyPresent)
    case 45 => Some(LogicalArity)
    case 48 => Some(ProviderRefRange)
    case 50 => if text[49] == 'e' then Some(GroupFieldNotAllowed) else Some(ProfileUpdateIntervalInvalid)
    case 55 => Some(ProfileFilenameInvalid)
    case 60 => Some(ChildrenNotAllowed)
    case _ => None
  }

  /** What is said of a sentinel is said of no other: different sentinels have different texts. */
  lemma {:induction false} MessageTells(text: string, e: Error)
    requires Says(text, e)
    ensures SentinelOf(text) == Some(e)
  {
    hide SaysOfRules, SaysOfTheRest, SentinelOf;
    if SaysOfRules(text, e) {
      RuleMessageTells(text, e);
    } else {
      OtherMessageTells(text, e);
    }
  }

  lemma {:induction false} RuleMessageTells(text: string, e: Error)
    requires SaysOfRules(text, e)
    ensures SentinelOf(text) == Some(e)
  {
  }

  lemma {:induction false} OtherMessageTells(text: string, e: Error)
    requires SaysOfTheRest(text, e)
    ensures SentinelOf(text) == Some(e)
  {
  }

  lemma {:induction false} MessagesDiffer(e: Error, other: Error)
    requires e != other
    ensures ValidationMessage(e) != ValidationMessage(other)
  {
    hide ValidationMessage, Says, SentinelOf;
    MessageSays(e);
    MessageSays(other);
    MessageTells(ValidationMessage(e), e);
    MessageTells(ValidationMessage(other), other);
  }
}
