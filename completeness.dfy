/** The app's own completeness test on a predicate's format string, which the
    editor's coordinator and the content view both apply. */
module Completeness {

  import Text

  /** A format string is incomplete when it is empty or mentions `nil` anywhere. */
  function IsIncomplete(predicateString: string): (r: bool)
    ensures r <==> predicateString == [] || exists i :: Text.OccursAt(predicateString, "nil", i)
  {
    Text.ContainsIff(predicateString, "nil");
    predicateString == [] || Text.Contains(predicateString, "nil")
  }
}
