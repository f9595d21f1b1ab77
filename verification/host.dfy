/** `clickup_to_ical/host.py`: the strings every boolean switch of the program accepts. */
module Host {

  /** `TRUE_VALUES`: the exact, case-sensitive spellings of "on". */
  const TrueValues: seq<string> := ["true", "1", "yes", "y", "on"]

  /** `value in TRUE_VALUES`. */
  predicate IsTrue(value: string) {
    value in TrueValues
  }

  /** Only the five listed spellings are accepted: a capitalised `True` or an empty string
      is not. */
  lemma TrueSpellings(value: string)
    ensures IsTrue(value) <==> value == "true" || value == "1" || value == "yes" || value == "y" || value == "on"
    ensures !IsTrue("True") && !IsTrue("") && !IsTrue("false")
  {
  }
}
