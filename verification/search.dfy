/**
 * The case-insensitive "contains" tests the list pages build their searches
 * from, for required text and for the two ways a nullable column is treated.
 */
module Search {
  import opened Wrappers
  import opened Text
  import opened Schema

  /** `field && field.toLowerCase().includes(key)`: an absent or empty field never matches. */
  predicate FieldContains(field: Option<string>, key: string) {
    Truthy(field) && Contains(Lower(field.value), key)
  }

  /** `field?.toLowerCase().includes(key)`: an absent field never matches, an empty one matches the empty key. */
  predicate OptionalContains(field: Option<string>, key: string) {
    field.Some? && Contains(Lower(field.value), key)
  }

  /** The two readings differ only on a present but empty field. */
  lemma FieldContainsIsOptionalContains(field: Option<string>, key: string)
    ensures FieldContains(field, key) ==> OptionalContains(field, key)
    ensures OptionalContains(field, key) && !FieldContains(field, key) <==> field == Some("") && key == ""
  {
    if field == Some("") && key == "" {
      ContainsEmpty("");
    }
    if field == Some("") {
      EmptyContainsOnlyEmpty(key);
    }
  }

  /** With the empty key, a present field always matches. */
  lemma EmptyKeyMatchesPresent(field: Option<string>)
    requires field.Some?
    ensures OptionalContains(field, "")
  {
    ContainsEmpty(Lower(field.value));
  }
}
