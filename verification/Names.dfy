/** Names that are compared without regard to case. */
module Names {

  /** `ke::Lowercase`, on ASCII names; two names match under `strcasecmp` when their lower-case forms are equal. */
  function Lower(s: string): string {
    if s == [] then [] else [if 'A' <= s[0] <= 'Z' then (s[0] as int + 32) as char else s[0]] + Lower(s[1..])
  }
}
