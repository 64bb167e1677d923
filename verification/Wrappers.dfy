// What the modules of the model share.
module Wrappers {
  datatype Option<+T> = None | Some(value: T)

  function Max(a: int, b: int): int {
    if a < b then b else a
  }

  // The second of two writes to one key is the one that stands.
  lemma Overwrite<K, V>(m: map<K, V>, k: K, v: V, w: V)
    ensures m[k := v][k := w] == m[k := w]
  {
  }

  // What str.strip removes.
  predicate IsSpace(c: char) {
    '\t' <= c <= '\r' || '\U{1c}' <= c <= ' ' || c == '\U{85}' || c == '\U{a0}' || c == '\U{1680}' ||
    '\U{2000}' <= c <= '\U{200a}' || c == '\U{2028}' || c == '\U{2029}' || c == '\U{202f}' || c == '\U{205f}' ||
    c == '\U{3000}'
  }

  // By code point: five ASCII controls from 9, five from 28 with the space, and the seventeen others of Unicode.
  lemma SpacesExactly(c: char)
    ensures var p := c as int;
      IsSpace(c) <==>
        (p in {9, 10, 11, 12, 13, 28, 29, 30, 31, 32, 133, 160, 5760, 8232, 8233, 8239, 8287, 12288} ||
         p - 8192 in {0, 1, 2, 3, 4, 5, 6, 7, 8, 9, 10})
  {
  }
}
