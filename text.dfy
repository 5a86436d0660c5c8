/** Upper-casing of currency codes (Rust's `str::to_uppercase`), restricted to ASCII. */
module Text {

  /** The upper-case form of one character: `a`..`z` become `A`..`Z`, everything else is kept. */
  function UpperChar(c: char): (u: char)
    ensures 'a' <= c <= 'z' ==> 'A' <= u <= 'Z' && u as int + 32 == c as int
    ensures !('a' <= c <= 'z') ==> u == c
  {
    if 'a' <= c <= 'z' then (c as int - 32) as char else c
  }

  /** Upper-cases every character of `s`, keeping its length. */
  function ToUpper(s: string): (u: string)
    ensures |u| == |s|
    ensures forall i :: 0 <= i < |s| ==> u[i] == UpperChar(s[i])
  {
    seq(|s|, i requires 0 <= i < |s| => UpperChar(s[i]))
  }

  /** A string that upper-casing leaves unchanged. */
  predicate IsUpper(s: string) {
    ToUpper(s) == s
  }

  /** Upper-casing is idempotent: its result is always an upper-case string. */
  lemma ToUpperIsUpper(s: string)
    ensures IsUpper(ToUpper(s))
  {
    var u := ToUpper(s);
    assert forall i :: 0 <= i < |u| ==> ToUpper(u)[i] == u[i];
  }
}
