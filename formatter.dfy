/**
 * Display labels for job types and experience levels
 * (frontend/app/utils/formatter.ts). The lookup is case-insensitive and an
 * unknown value is shown as given.
 */
module Formatter {
  import opened Wrappers
  import opened Text
  import JobHandlers

  const JOB_TYPE_LABELS: map<string, string> := map[
    "fulltime" := "Full Time", "parttime" := "Part Time", "contract" := "Contract",
    "casual" := "Casual", "internship" := "Internship"]

  const EXPERIENCE_LABELS: map<string, string> := map[
    "newgrad" := "New Grad", "junior" := "Junior", "senior" := "Senior",
    "manager" := "Manager", "internship" := "Internship"]

  /**
   * The label tables are plain object literals, so a lookup also sees the
   * all-lower-case properties every object inherits.
   */
  const INHERITED_KEYS: set<string> := {"constructor", "__proto__"}

  /** What `table[key]` evaluates to. */
  datatype JsValue = Str(s: string) | Inherited(name: string) | Undefined

  function LookupAsWritten(table: map<string, string>, key: string): (r: JsValue)
    ensures key in table ==> r == Str(table[key])
    ensures r.Inherited? <==> key !in table && key in INHERITED_KEYS
    ensures r.Undefined? <==> key !in table && key !in INHERITED_KEYS
  {
    if key in table then Str(table[key])
    else if key in INHERITED_KEYS then Inherited(key)
    else Undefined
  }

  /** `table[value.toLowerCase()] || value`: an inherited property is truthy and wins. */
  function FormatAsWritten(table: map<string, string>, value: string): (r: JsValue)
    ensures r.Str? || r.Inherited?
    ensures r.Inherited? <==> ToLower(value) !in table && ToLower(value) in INHERITED_KEYS
    ensures r.Str? && r.s != value ==> ToLower(value) in table && r.s == table[ToLower(value)]
  {
    match LookupAsWritten(table, ToLower(value))
    case Str(shown) => if shown != "" then Str(shown) else Str(value)
    case Inherited(name) => Inherited(name)
    case Undefined => Str(value)
  }

  /** "constructor" is not a job type, yet it is not shown as given: the lookup returns the Object constructor. */
  lemma ConstructorNotEchoedAsWritten()
    ensures FormatAsWritten(JOB_TYPE_LABELS, "constructor") == Inherited("constructor")
    ensures FormatAsWritten(EXPERIENCE_LABELS, "Constructor") != Str("Constructor")
  {
    assert ToLower("constructor") == "constructor";
    assert ToLower("Constructor") == "constructor";
  }

  /** An own-property lookup: a known value (any case) gets its label, anything else is shown as given. */
  function FormatLabel(table: map<string, string>, value: string): (r: string)
    ensures ToLower(value) in table && table[ToLower(value)] != "" ==> r == table[ToLower(value)]
    ensures ToLower(value) !in table ==> r == value
  {
    if ToLower(value) in table && table[ToLower(value)] != "" then table[ToLower(value)] else value
  }

  /** The two lookups differ only on the inherited property names. */
  lemma FormatAgreesOffInherited(table: map<string, string>, value: string)
    requires ToLower(value) !in INHERITED_KEYS
    ensures FormatAsWritten(table, value) == Str(FormatLabel(table, value))
  {
  }

  lemma KeysAreLowerCase(table: map<string, string>, value: string)
    requires table == JOB_TYPE_LABELS || table == EXPERIENCE_LABELS
    ensures value in table ==> ToLower(value) == value
  {
    if value in table {
      assert IsLowerCase(value);
      LowerOfUpper(value);
    }
  }

  /**
   * `formatJobType`, as written: a known value in any letter case gets its
   * label, an inherited property name gets that property, anything else is
   * shown as given.
   */
  function FormatJobType(jobType: string): (shown: JsValue)
    ensures ToLower(jobType) in JOB_TYPE_LABELS ==> shown == Str(JOB_TYPE_LABELS[ToLower(jobType)])
    ensures ToLower(jobType) in INHERITED_KEYS ==> shown == Inherited(ToLower(jobType))
    ensures ToLower(jobType) !in JOB_TYPE_LABELS && ToLower(jobType) !in INHERITED_KEYS ==> shown == Str(jobType)
  {
    FormatAsWritten(JOB_TYPE_LABELS, jobType)
  }

  /** `formatExperience`, as written, with the same three cases. */
  function FormatExperience(experience: string): (shown: JsValue)
    ensures ToLower(experience) in EXPERIENCE_LABELS ==> shown == Str(EXPERIENCE_LABELS[ToLower(experience)])
    ensures ToLower(experience) in INHERITED_KEYS ==> shown == Inherited(ToLower(experience))
    ensures ToLower(experience) !in EXPERIENCE_LABELS && ToLower(experience) !in INHERITED_KEYS ==> shown == Str(experience)
  {
    FormatAsWritten(EXPERIENCE_LABELS, experience)
  }

  /** The lookup ignores letter case: a known value written in capitals gets the same label. */
  lemma FormatIgnoresCase(value: string)
    requires value in JOB_TYPE_LABELS
    ensures FormatJobType(ToUpper(value)) == Str(JOB_TYPE_LABELS[value])
  {
    assert IsLowerCase(value);
    LowerOfUpper(value);
  }

  /** Every job type and experience level the backend accepts has a label, and nothing else does. */
  lemma LabelsCoverAcceptedValues()
    ensures JOB_TYPE_LABELS.Keys == JobHandlers.JOB_TYPES
    ensures EXPERIENCE_LABELS.Keys == JobHandlers.EXPERIENCES
  {
  }
}
