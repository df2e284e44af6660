/**
  * Identifiers that the lifecycle layer generates: a fixed prefix (`vol-`, `sess-`,
  * `snap-`, `chk-`) followed by the first eight characters of a fresh UUID, lower-cased.
  * The UUID itself comes from outside the model.
  */
module Ids {

  predicate IsLowerHex(c: char) {
    '0' <= c <= '9' || 'a' <= c <= 'f'
  }

  predicate IsHex(c: char) {
    IsLowerHex(c) || 'A' <= c <= 'F'
  }

  /** What the UUID generator yields: text whose first eight characters are hexadecimal digits. */
  predicate IsUuid(u: string) {
    |u| >= 8 && forall i :: 0 <= i < 8 ==> IsHex(u[i])
  }

  /** ASCII lower-casing of one character. */
  function LowerChar(c: char): (d: char)
    ensures 'A' <= c <= 'Z' ==> 'a' <= d <= 'z' && d as int - c as int == 32
    ensures !('A' <= c <= 'Z') ==> d == c
  {
    if 'A' <= c <= 'Z' then (c as int + 32) as char else c
  }

  function ToLower(s: string): (r: string)
    ensures |r| == |s|
    ensures forall i :: 0 <= i < |s| ==> r[i] == LowerChar(s[i])
  {
    if s == [] then [] else [LowerChar(s[0])] + ToLower(s[1..])
  }

  /** `prefix` followed by the lower-cased first eight characters of `uuid`. */
  function GeneratedId(prefix: string, uuid: string): (id: string)
    requires |uuid| >= 8
    ensures |id| == |prefix| + 8 && id[..|prefix|] == prefix
    ensures IsUuid(uuid) ==> forall i :: |prefix| <= i < |id| ==> IsLowerHex(id[i])
  {
    prefix + ToLower(uuid[..8])
  }
}
