/** Vocabulary shared by every component: optional values, results, bytes and the few string
    operations the Hub performs on identifiers. */
module Basics {

  datatype Option<+T> = None | Some(value: T)

  datatype Result<+T> = Ok(value: T) | Err(error: string)

  newtype byte = x: int | 0 <= x < 256

  type Bytes = seq<byte>

  /** An unpacked archive: file name to contents. */
  type Files = map<string, Bytes>

  /** SQL LOWER and JavaScript toLowerCase on the hexadecimal text they are applied to. */
  function LowerChar(c: char): char {
    if 'A' <= c <= 'Z' then (c as int + 32) as char else c
  }

  function Lower(s: string): string {
    if s == "" then "" else [LowerChar(s[0])] + Lower(s[1..])
  }

  lemma {:induction false} LowerIsIdempotent(s: string)
    ensures Lower(Lower(s)) == Lower(s)
  {
    if s != "" {
      var rest := Lower(s[1..]);
      assert Lower(s)[1..] == rest;
      LowerIsIdempotent(s[1..]);
    }
  }

  /** Letters A to Z become a to z, and nothing else changes. */
  lemma {:induction false} LowerIsCharacterwise(s: string, k: nat)
    requires k < |s|
    ensures |Lower(s)| == |s|
    ensures 'A' <= s[k] <= 'Z' ==>
      'a' <= Lower(s)[k] <= 'z' && Lower(s)[k] as int - 'a' as int == s[k] as int - 'A' as int
    ensures !('A' <= s[k] <= 'Z') ==> Lower(s)[k] == s[k]
  {
    if |s| > 1 { LowerIsCharacterwise(s[1..], if k > 0 then k - 1 else 0); }
  }

  /** The elements satisfying p, in order. */
  function Where<T>(s: seq<T>, p: T -> bool): (r: seq<T>)
    ensures |r| <= |s|
    ensures forall x :: x in r ==> x in s && p(x)
    ensures forall x :: x in s && p(x) ==> x in r
  {
    if s == [] then []
    else
      var rest := Where(s[..|s| - 1], p);
      if p(s[|s| - 1]) then rest + [s[|s| - 1]] else rest
  }

  predicate NoSlash(s: string) {
    '/' !in s
  }

  /** A path component without a slash can be read back from a path. */
  lemma {:induction false} SplitAtSlash(a: string, b: string, x: string, y: string)
    requires NoSlash(a) && NoSlash(x)
    requires a + "/" + b == x + "/" + y
    ensures a == x && b == y
  {
    var left, right := a + "/" + b, x + "/" + y;
    assert left[|a|] == '/' && right[|x|] == '/';
    assert forall i :: 0 <= i < |a| ==> left[i] == a[i];
    assert forall i :: 0 <= i < |x| ==> right[i] == x[i];
    assert |a| == |x|;
    assert left[..|a|] == a && right[..|x|] == x;
    assert left[|a| + 1..] == b && right[|x| + 1..] == y;
  }

  /** Two texts with a common prefix and a common suffix agree in between. */
  lemma {:induction false} Unwrap(prefix: string, a: string, b: string, suffix: string)
    requires prefix + a + suffix == prefix + b + suffix
    ensures a == b
  {
    var left, right := prefix + a + suffix, prefix + b + suffix;
    assert |a| == |b|;
    assert left[|prefix|..|prefix| + |a|] == a;
    assert right[|prefix|..|prefix| + |b|] == b;
  }
}
