/**
 * `convert_string_to_bool`: the framework's reading of boolean settings
 * such as `CLYJIN_HAS_TO_SERIALIZE`. It returns a (value, error) pair in the
 * Go style rather than raising.
 */
module Util {
  import opened Errors

  const TrueStrings: seq<string> := ["true", "1"]
  const FalseStrings: seq<string> := ["false", "0"]

  /**
   * "true" and "1" read as true, "false" and "0" as false, with no error.
   * Matching is exact: case, surrounding whitespace and every other string
   * give `(false, UnconvertableString(s))`.
   */
  function ConvertStringToBool(s: string): (r: (bool, Option<Error>))
    ensures r.1.None? <==> s in TrueStrings || s in FalseStrings
    ensures r.0 <==> s in TrueStrings
    ensures r.1.Some? ==> r.1.value == UnconvertableString(s)
  {
    if s in TrueStrings then (true, None)
    else if s in FalseStrings then (false, None)
    else (false, Some(UnconvertableString(s)))
  }

  /** Python's own rendering of a bool, lower-cased, converts back to it. */
  lemma ConvertRendered(b: bool)
    ensures ConvertStringToBool(if b then "true" else "false") == (b, None)
    ensures ConvertStringToBool(if b then "1" else "0") == (b, None)
  {
    assert "false" !in TrueStrings && "0" !in TrueStrings;
  }

  /** Case and whitespace are significant: these near-misses are errors. */
  lemma ConvertIsExact()
    ensures ConvertStringToBool("True") == (false, Some(UnconvertableString("True")))
    ensures ConvertStringToBool(" true") == (false, Some(UnconvertableString(" true")))
    ensures ConvertStringToBool("yes") == (false, Some(UnconvertableString("yes")))
  {
    assert "True"[0] != "true"[0] && "True"[0] != "false"[0];
    assert " true"[0] != "true"[0] && " true"[0] != "false"[0];
    assert "yes"[0] != "true"[0] && "yes"[0] != "false"[0];
  }
}
