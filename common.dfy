/** Values shared by every layer: an optional value, the JSON reply of a route,
    and the two JavaScript string operations the routes rely on. */
module Common {

  datatype Option<+T> = None | Some(value: T)

  /** A route's JSON reply. `Ok` is status 200 with `success: true` and a payload;
      `Error` is `{ error, success: false }` with its HTTP status. */
  datatype Response<+T> = Ok(body: T) | Error(status: nat, message: string)

  /** JavaScript's truthiness of a string field read from a JSON body or a cookie:
      a missing field, `null` and the empty string are all falsy. */
  predicate Present(field: Option<string>): (r: bool)
    ensures r <==> field.Some? && Utf16Length(field.value) > 0
  {
    field.Some? && field.value != ""
  }

  /** `String.prototype.length`: the number of UTF-16 code units, so a character
      outside the Basic Multilingual Plane counts twice. */
  function Utf16Length(s: string): (n: nat)
    ensures |s| <= n <= 2 * |s|
    ensures s == [] <==> n == 0
  {
    if s == [] then 0 else (if s[0] as int > 0xFFFF then 2 else 1) + Utf16Length(s[1..])
  }

  /** On text made only of Basic Multilingual Plane characters, JavaScript's length
      is the number of characters. */
  lemma {:induction false} Utf16LengthOfBmp(s: string)
    requires forall i :: 0 <= i < |s| ==> s[i] as int <= 0xFFFF
    ensures Utf16Length(s) == |s|
  {
    if s != [] {
      Utf16LengthOfBmp(s[1..]);
    }
  }
}
