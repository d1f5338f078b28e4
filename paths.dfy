/** `rtrim($a, '/') . '/' . ltrim($b, '/')`, the one way the facade joins a base to a path. */
module Paths {

  predicate AllSlashes(s: string) {
    forall i | 0 <= i < |s| :: s[i] == '/'
  }

  /** `rtrim($s, '/')`: `s` with every trailing '/' removed. */
  function RTrim(s: string): (r: string)
    ensures |r| <= |s| && r == s[..|r|]
    ensures AllSlashes(s[|r|..])
    ensures r == [] || r[|r| - 1] != '/'
    decreases |s|
  {
    if s != [] && s[|s| - 1] == '/' then RTrim(s[..|s| - 1]) else s
  }

  /** `ltrim($s, '/')`: `s` with every leading '/' removed. */
  function LTrim(s: string): (r: string)
    ensures |r| <= |s| && r == s[|s| - |r|..]
    ensures AllSlashes(s[..|s| - |r|])
    ensures r == [] || r[0] != '/'
    decreases |s|
  {
    if s != [] && s[0] == '/' then LTrim(s[1..]) else s
  }

  /** The join: `a` up to its trailing slashes, one '/', `b` after its leading slashes. */
  function Join(a: string, b: string): (r: string)
    ensures var k, j := |RTrim(a)|, |b| - |LTrim(b)|;
      && 0 <= j <= |b| && |r| == k + 1 + (|b| - j) && r[k] == '/'
      && r[..k] == a[..k] && AllSlashes(a[k..])
      && r[k + 1..] == b[j..] && AllSlashes(b[..j])
      && (k == 0 || r[k - 1] != '/')
      && (k + 1 == |r| || r[k + 1] != '/')
  {
    RTrim(a) + "/" + LTrim(b)
  }

  /** Trimming a string that ends in something other than '/' followed by slashes
      gives back exactly that string. */
  lemma {:induction false} RTrimPadded(x: string, m: string)
    requires AllSlashes(m)
    requires x == [] || x[|x| - 1] != '/'
    ensures RTrim(x + m) == x
    decreases |m|
  {
    if m == [] {
      assert x + m == x;
    } else {
      var s := x + m;
      assert s[|s| - 1] == '/';
      assert s[..|s| - 1] == x + m[..|m| - 1];
      RTrimPadded(x, m[..|m| - 1]);
    }
  }

  /** The mirror of RTrimPadded for leading slashes. */
  lemma {:induction false} LTrimPadded(n: string, y: string)
    requires AllSlashes(n)
    requires y == [] || y[0] != '/'
    ensures LTrim(n + y) == y
    decreases |n|
  {
    if n == [] {
      assert n + y == y;
    } else {
      var s := n + y;
      assert s[0] == '/';
      assert s[1..] == n[1..] + y;
      LTrimPadded(n[1..], y);
    }
  }

  /** Reference reading of the join: whatever slashes pad the two halves, the result
      is the unpadded halves with exactly one '/' between them. */
  lemma JoinUnique(x: string, m: string, n: string, y: string)
    requires AllSlashes(m) && AllSlashes(n)
    requires x == [] || x[|x| - 1] != '/'
    requires y == [] || y[0] != '/'
    ensures Join(x + m, n + y) == x + "/" + y
  {
    RTrimPadded(x, m);
    LTrimPadded(n, y);
  }

  /** Extra separators on either side never change the join. */
  lemma JoinAbsorbsSlashes(a: string, b: string)
    ensures Join(a + "/", b) == Join(a, b)
    ensures Join(a, "/" + b) == Join(a, b)
  {
  }
}
