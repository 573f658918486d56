/** Shared by the components: optional values, 64-bit words, counters and the substring test of error texts. */
module Common {

  datatype Option<+T> = None | Some(value: T)

  const TWO64: nat := 0x1_0000_0000_0000_0000

  type uint64 = x: nat | x < 0x1_0000_0000_0000_0000

  /** A counter kept in a map, 0 while there is no entry. */
  function Count(counts: map<string, nat>, key: string): nat {
    if key in counts then counts[key] else 0
  }

  /** True when `sub` stands in `s` at position `i`. */
  predicate StandsAt(s: string, sub: string, i: nat) {
    i + |sub| <= |s| && s[i..i + |sub|] == sub
  }

  /** The substring test applied to the texts of errors. */
  predicate Contains(s: string, sub: string) {
    exists i | 0 <= i <= |s| :: StandsAt(s, sub, i)
  }
}
