/**
 * The two fixed tables of the case form: the border colour that marks the
 * chosen priority, and the description prompt offered for each case type.
 */
module CaseTables {

  import opened Wrappers

  predicate IsHexDigit(c: char) {
    '0' <= c <= '9' || 'a' <= c <= 'f'
  }

  /** A CSS colour written `#rrggbb` in lower case. */
  predicate IsHexColor(s: string) {
    |s| == 7 && s[0] == '#' && forall k | 1 <= k < 7 :: IsHexDigit(s[k])
  }

  /** `updatePriorityStyling`: the border colour for High, Medium and Low;
      any other value leaves the border colour unset. */
  function PriorityBorderColor(priority: string): (r: Option<string>)
    ensures r.Some? <==> priority == "High" || priority == "Medium" || priority == "Low"
    ensures r.Some? ==> IsHexColor(r.value)
  {
    match priority
    case "High" => Some("#ef4444")
    case "Medium" => Some("#f59e0b")
    case "Low" => Some("#10b981")
    case _ => None
  }

  /** The three priorities are told apart by their colour. */
  lemma PriorityColorsDistinct(p: string, q: string)
    requires PriorityBorderColor(p).Some? && PriorityBorderColor(q).Some?
    requires p != q
    ensures PriorityBorderColor(p) != PriorityBorderColor(q)
  {
  }

  const TechnicalSupportPlaceholder := "Please describe the technical issue you're experiencing, including error messages, steps you've already tried, and your system information..."
  const BugReportPlaceholder := "Please describe the bug, what you expected to happen vs. what actually happened, and steps to reproduce the issue..."
  const FeatureRequestPlaceholder := "Please describe the feature you'd like to see, how it would help you, and any specific requirements..."
  const OrderIssuePlaceholder := "Please provide your order number and describe the issue you're experiencing..."
  const DefaultPlaceholder := "Please provide detailed information about your issue, including steps to reproduce, error messages, or any relevant details..."

  predicate IsKnownCaseType(caseType: string) {
    caseType == "Technical Support" || caseType == "Bug Report"
    || caseType == "Feature Request" || caseType == "Order Issue"
  }

  /** `handleCaseTypeChange`: the prompt for each known case type, and the
      general prompt for every other value. */
  function CaseTypePlaceholder(caseType: string): (r: string)
    ensures r != ""
    ensures r == DefaultPlaceholder <==> !IsKnownCaseType(caseType)
  {
    match caseType
    case "Technical Support" => TechnicalSupportPlaceholder
    case "Bug Report" => BugReportPlaceholder
    case "Feature Request" => FeatureRequestPlaceholder
    case "Order Issue" => OrderIssuePlaceholder
    case _ => DefaultPlaceholder
  }

  /** Each known case type has a prompt of its own. */
  lemma CaseTypePlaceholdersDistinct(a: string, b: string)
    requires IsKnownCaseType(a) && IsKnownCaseType(b) && a != b
    ensures CaseTypePlaceholder(a) != CaseTypePlaceholder(b)
  {
  }
}
