/** Small things every part of the model uses. */
module Wrappers {
  datatype Option<+T> = None | Some(value: T)

  /** The parts with the separator between each two. */
  function Join(parts: seq<string>, sep: string): string {
    if parts == [] then "" else if |parts| == 1 then parts[0] else parts[0] + (sep + Join(parts[1..], sep))
  }

  lemma {:induction false} JoinMore(parts: seq<string>, part: string, sep: string)
    ensures Join(parts + [part], sep) == if parts == [] then part else Join(parts, sep) + (sep + part)
    decreases |parts|
  {
    if parts != [] {
      assert (parts + [part])[1..] == parts[1..] + [part];
      JoinMore(parts[1..], part, sep);
      if |parts| > 1 {
        Regroup(parts[0], sep, Join(parts[1..], sep), sep + part);
      }
    }
  }

  lemma Regroup<T>(a: seq<T>, b: seq<T>, c: seq<T>, d: seq<T>)
    ensures (a + (b + c)) + d == a + (b + (c + d))
  {
  }

  lemma Enclosed<T>(a: seq<T>, b: seq<T>, c: seq<T>, d: seq<T>)
    ensures (a + b + c) + d == a + (b + (c + d)) && (a + (b + c)) + d == a + (b + (c + d)) && a + b + c == a + (b + c)
  {
  }

  // ---- characters (ASCII) ----

  predicate IsSpace(c: char) {
    c == ' ' || '\t' <= c <= '\r'
  }

  function Lower(c: char): char {
    if 'A' <= c <= 'Z' then (c as int + 32) as char else c
  }

  function TrimStart(s: string): (r: string)
    ensures |r| <= |s| && (r != "" ==> !IsSpace(r[0]))
  {
    if s != "" && IsSpace(s[0]) then TrimStart(s[1..]) else s
  }

  function TrimEnd(s: string): (r: string)
    ensures |r| <= |s|
  {
    if s != "" && IsSpace(s[|s| - 1]) then TrimEnd(s[..|s| - 1]) else s
  }
}
