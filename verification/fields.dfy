/**
 How the serializers turn a submitted text value into a stored one: a DRF
 `CharField` trims surrounding whitespace, refuses a blank result unless blanks
 are allowed, refuses text holding a null character, and checks `max_length`
 on the trimmed text.
 */
module Fields {
  import opened Wrappers
  import opened Text

  /** The text holds no null character, which every `CharField` refuses. */
  predicate NoNul(s: string) {
    '\0' !in s
  }

  function CleanChar(v: string, maxLength: Option<nat>, allowBlank: bool): (r: Option<string>)
    ensures r.Some? ==> r.value == Trim(v)
    ensures r.Some? <==>
      (allowBlank || Trim(v) != []) && NoNul(Trim(v)) && (maxLength.None? || |Trim(v)| <= maxLength.value)
  {
    var t := Trim(v);
    if !allowBlank && t == [] then None
    else if !NoNul(t) then None
    else if maxLength.Some? && |t| > maxLength.value then None
    else Some(t)
  }

  /** A value made only of whitespace never passes a field that refuses blanks. */
  lemma BlankRejected(v: string, maxLength: Option<nat>)
    ensures AllWhitespace(v) ==> CleanChar(v, maxLength, false).None?
  {
    TrimEmptyIffBlank(v);
  }

  /**
   A required text field: the submitted value when there is one, else `fallback`
   (the stored value under a partial update; `None`, i.e. "this field is required",
   otherwise). The outer `None` of the result is a validation error.
   */
  function RequiredChar(given: Option<string>, fallback: Option<string>, maxLength: Option<nat>): (r: Option<string>)
    ensures given.None? ==> r == fallback
    ensures given.Some? ==> r == CleanChar(given.value, maxLength, false)
  {
    match given
    case Some(v) => CleanChar(v, maxLength, false)
    case None => fallback
  }

  /**
   An optional, nullable text attribute (blank allowed): the trimmed text, null,
   or `fallback` when the key is absent. The outer `None` is a validation error
   (a null character, or longer than `maxLength` once trimmed).
   */
  function OptionalChar(given: Option<Option<string>>, fallback: Option<string>, maxLength: Option<nat>): (r: Option<Option<string>>)
    ensures given.None? ==> r == Some(fallback)
    ensures given == Some(None) ==> r == Some(None)
    ensures given.Some? && given.value.Some? ==>
      (r.Some? <==> NoNul(Trim(given.value.value)) && (maxLength.None? || |Trim(given.value.value)| <= maxLength.value))
      && (r.Some? ==> r.value == Some(Trim(given.value.value)))
  {
    match given
    case None => Some(fallback)
    case Some(None) => Some(None)
    case Some(Some(v)) =>
      match CleanChar(v, maxLength, true)
      case Some(t) => Some(Some(t))
      case None => None
  }
}
