/** The `@AtLeastOneNotBlank` rule on a search request: the request exists
    and at least one of name, brand and category is non-blank. */
module SearchRequestValidator {
  import opened Common
  import opened Entities
  import opened Strings

  /** A field counts when it is non-null and not empty after `trim()`. */
  predicate NotBlank(field: Text) {
    field.Some? && Trim(field.value) != ""
  }

  /** `isValid`, with a null request as `None`. */
  predicate IsValid(request: Option<SearchRequest>) {
    && request.Some?
    && (NotBlank(request.value.name) || NotBlank(request.value.brand) || NotBlank(request.value.category))
  }

  /** A field has something to search for: some character above U+0020. */
  predicate HasVisibleChar(field: Text) {
    field.Some? && exists i :: 0 <= i < |field.value| && !IsTrimmed(field.value[i])
  }

  /** A field is non-blank exactly when it holds a character `trim()` keeps. */
  lemma NotBlankIffVisible(field: Text)
    ensures NotBlank(field) <==> HasVisibleChar(field)
  {
    if field.Some? {
      TrimEmptyIffAllTrimmed(field.value);
    }
  }

  /** The rule stated without `trim()`: a request is valid exactly when it
      is non-null and one of its three fields has a visible character. */
  lemma ValidIffSomeFieldVisible(request: Option<SearchRequest>)
    ensures IsValid(request) <==>
      request.Some? &&
      (HasVisibleChar(request.value.name) || HasVisibleChar(request.value.brand) || HasVisibleChar(request.value.category))
  {
    if request.Some? {
      NotBlankIffVisible(request.value.name);
      NotBlankIffVisible(request.value.brand);
      NotBlankIffVisible(request.value.category);
    }
  }

  /** A null request is invalid. */
  lemma NullRequestInvalid()
    ensures !IsValid(None)
  {
  }

  /** Null and whitespace-only fields never make a request valid. */
  lemma BlankFieldsInvalid(name: Text, brand: Text, category: Text)
    requires !HasVisibleChar(name) && !HasVisibleChar(brand) && !HasVisibleChar(category)
    ensures !IsValid(Some(SearchRequest(name, brand, category)))
  {
    ValidIffSomeFieldVisible(Some(SearchRequest(name, brand, category)));
  }

  /** One non-blank field makes the request valid whatever the others hold. */
  lemma OneNonBlankFieldSuffices(a: Text, b: Text, c: Text)
    requires NotBlank(a)
    ensures IsValid(Some(SearchRequest(a, b, c)))
    ensures IsValid(Some(SearchRequest(b, a, c)))
    ensures IsValid(Some(SearchRequest(b, c, a)))
  {
  }

  /** The rule is a symmetric disjunction: which field holds the non-blank
      value does not matter. */
  lemma ValidityIsSymmetric(a: Text, b: Text, c: Text)
    ensures IsValid(Some(SearchRequest(a, b, c))) == IsValid(Some(SearchRequest(b, a, c)))
    ensures IsValid(Some(SearchRequest(a, b, c))) == IsValid(Some(SearchRequest(c, b, a)))
    ensures IsValid(Some(SearchRequest(a, b, c))) == IsValid(Some(SearchRequest(a, c, b)))
  {
  }

  // ---------------------------------------------- the validator's cases

  lemma AllNullInvalid()
    ensures !IsValid(Some(SearchRequest(None, None, None)))
  {
  }

  lemma AllEmptyInvalid()
    ensures !IsValid(Some(SearchRequest(Some(""), Some(""), Some(""))))
  {
  }

  lemma AllSpecifiedValid()
    ensures IsValid(Some(SearchRequest(Some("name"), Some("brand"), Some("category"))))
  {
  }

  lemma NameOnlyValid()
    ensures IsValid(Some(SearchRequest(Some("name"), Some(""), None)))
  {
  }

  lemma BrandOnlyValid()
    ensures IsValid(Some(SearchRequest(None, Some("brand"), Some(" "))))
  {
  }

  lemma CategoryOnlyValid()
    ensures IsValid(Some(SearchRequest(Some(""), None, Some("category"))))
  {
  }
}
