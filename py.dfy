/** The few pieces of Python, posixpath and numpy behaviour that the Carlane
    dataset adapter relies on, written out so that the model does not silently
    assume Dafny's semantics in their place. */
module Py {

  datatype Option<T> = None | Some(value: T)

  /** Python's `s[i]` on a list: positions `-|s| .. -1` count from the end,
      anything else raises IndexError (here: None). */
  function Index<T>(s: seq<T>, i: int): (r: Option<T>)
    ensures r.Some? <==> -|s| <= i < |s|
    ensures r.Some? ==> r.value == s[if i < 0 then |s| + i else i]
  {
    if 0 <= i < |s| then Some(s[i])
    else if -|s| <= i < 0 then Some(s[|s| + i])
    else None
  }

  /** `posixpath.join(a, b)` for two components: an absolute `b` discards `a`;
      otherwise one separator is inserted unless `a` is empty or ends in one. */
  function Join(a: string, b: string): (r: string)
    ensures |b| <= |r| && r[|r| - |b|..] == b
    ensures (b == [] || b[0] != '/') ==> |a| <= |r| && r[..|a|] == a
    ensures |b| > 0 && b[0] == '/' ==> r == b
    ensures (b == [] || b[0] != '/') ==> r == a + b || r == a + "/" + b
    ensures (b == [] || b[0] != '/') ==> (r == a + b <==> a == [] || a[|a| - 1] == '/')
  {
    if |b| > 0 && b[0] == '/' then b
    else if a == [] || a[|a| - 1] == '/' then a + b
    else a + "/" + b
  }

  const Two31: int := 0x8000_0000
  const Two32: int := 0x1_0000_0000

  /** numpy's `astype(np.int32)` on a 64-bit integer: two's-complement
      truncation to 32 bits. */
  function WrapInt32(v: int): (r: int)
    ensures -Two31 <= r < Two31
    ensures (v - r) % Two32 == 0
    ensures -Two31 <= v < Two31 ==> r == v
  {
    (v + Two31) % Two32 - Two31
  }
}
