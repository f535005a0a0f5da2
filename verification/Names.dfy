/** SQL names are compared without regard to ASCII case (sqlcipher/src/util.c, sqlcipher/src/global.c). */
module Names {
  datatype Option<T> = None | Some(value: T)

  function Lower(c: char): char {
    if 'A' <= c <= 'Z' then (c as int + 32) as char else c
  }

  /** sqlite3StrICmp finds no difference. */
  predicate SameName(a: string, b: string) {
    |a| == |b| && forall i | 0 <= i < |a| :: Lower(a[i]) == Lower(b[i])
  }
}
