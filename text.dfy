/**
 * String helpers: truthiness of optional strings, and `String.prototype.toLowerCase` for
 * the key handlers, restricted to ASCII letters (see README, "Left out").
 */
module Text {
  import opened Wrappers

  /** JavaScript truthiness of a string that may be `null`: present and not empty. */
  predicate Truthy(s: Option<string>)
  {
    s.Some? && s.value != ""
  }

  function LowerChar(c: char): char
  {
    if 'A' <= c <= 'Z' then (c as int - 'A' as int + 'a' as int) as char else c
  }

  function ToLower(s: string): (r: string)
    ensures |r| == |s|
    ensures forall i :: 0 <= i < |s| ==> r[i] == LowerChar(s[i])
  {
    if s == [] then [] else [LowerChar(s[0])] + ToLower(s[1..])
  }

  /** Lower-casing twice is lower-casing once. */
  lemma ToLowerIdempotent(s: string)
    ensures ToLower(ToLower(s)) == ToLower(s)
  {
    var once := ToLower(s);
    assert forall i :: 0 <= i < |s| ==> LowerChar(once[i]) == once[i];
  }

  /** Exactly the one-character keys `h` and `H` lower-case to "h". */
  lemma LowersToH(key: string)
    ensures ToLower(key) == "h" <==> key == "h" || key == "H"
  {
    if ToLower(key) == "h" {
      assert |key| == 1 && LowerChar(key[0]) == 'h';
      assert key == [key[0]];
    }
  }
}
