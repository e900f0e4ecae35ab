/** Mongoose validation outcomes, as reported per document path. */
module Schema {

  /** The validator of a path that rejected its value. */
  datatype Violation =
    | Required   // `required: true` and the value is absent (or an empty string)
    | Min        // below the `min` of a number
    | Enum       // a string outside the `enum` list
    | MaxLength  // a string longer than `maxlength`

  /** A failed validation: the rejecting validator of every failing path,
      keyed by path name (the `errors` object of a mongoose ValidationError). */
  type Errors = map<string, Violation>

  /** The `length` of a string as JavaScript counts it, in UTF-16 code
      units: a character outside the Basic Multilingual Plane takes two. */
  function Utf16Length(s: string): (n: nat)
    ensures |s| <= n <= 2 * |s|
  {
    if s == [] then 0 else (if s[0] as int >= 0x1_0000 then 2 else 1) + Utf16Length(s[1..])
  }

  /** Only characters outside the Basic Multilingual Plane make the UTF-16
      length exceed the character count. */
  lemma {:induction false} Utf16LengthBmp(s: string)
    ensures Utf16Length(s) == |s| <==> forall i :: 0 <= i < |s| ==> s[i] as int < 0x1_0000
    decreases |s|
  {
    if s != [] {
      Utf16LengthBmp(s[1..]);
      assert forall i :: 1 <= i < |s| ==> s[i] == s[1..][i - 1];
    }
  }
}
