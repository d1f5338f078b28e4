/** The name `putFile` stores an upload under: 20 random bytes in lower-case hex,
    followed by the client file's extension when it has one. */
module Filenames {
  import opened Wrappers
  import Paths

  newtype byte = x: int | 0 <= x < 256

  predicate IsLowerHex(c: char) {
    '0' <= c <= '9' || 'a' <= c <= 'f'
  }

  /** The lower-case hex digit of `k`. */
  function HexDigit(k: nat): (c: char)
    requires k < 16
    ensures IsLowerHex(c)
  {
    if k < 10 then ('0' as int + k) as char else ('a' as int + k - 10) as char
  }

  /** The value of a lower-case hex digit; the inverse of HexDigit. */
  function DigitValue(c: char): (k: nat)
    requires IsLowerHex(c)
    ensures k < 16 && HexDigit(k) == c
  {
    if c <= '9' then c as int - '0' as int else c as int - 'a' as int + 10
  }

  /** `bin2hex($bytes)`: two lower-case hex digits per byte, high nibble first. */
  function Hex(bytes: seq<byte>): (r: string)
    ensures |r| == 2 * |bytes|
    ensures forall i | 0 <= i < |r| :: IsLowerHex(r[i])
  {
    if bytes == [] then []
    else [HexDigit(bytes[0] as int / 16), HexDigit(bytes[0] as int % 16)] + Hex(bytes[1..])
  }

  /** `hex2bin($s)` on a well-formed lower-case hex string: the reference inverse of Hex. */
  function Unhex(s: string): seq<byte>
    requires |s| % 2 == 0
    requires forall i | 0 <= i < |s| :: IsLowerHex(s[i])
  {
    if s == [] then []
    else [(DigitValue(s[0]) * 16 + DigitValue(s[1])) as byte] + Unhex(s[2..])
  }

  /** Hex loses nothing: decoding the hex digits gives the bytes back. */
  lemma {:induction false} UnhexHex(bytes: seq<byte>)
    ensures Unhex(Hex(bytes)) == bytes
  {
    if bytes != [] {
      var v := bytes[0] as int;
      var h := Hex(bytes);
      assert h[2..] == Hex(bytes[1..]);
      assert DigitValue(h[0]) == v / 16 && DigitValue(h[1]) == v % 16;
      UnhexHex(bytes[1..]);
    }
  }

  /** The index of the last `c` in `s`, or -1 (`strrpos`). */
  function LastIndexOf(s: string, c: char): (r: int)
    ensures -1 <= r < |s|
    ensures r >= 0 ==> s[r] == c
    ensures forall i | r < i < |s| :: s[i] != c
    decreases |s|
  {
    if s == [] then -1
    else if s[|s| - 1] == c then |s| - 1
    else LastIndexOf(s[..|s| - 1], c)
  }

  /** `basename($s)`: the last '/'-separated component once trailing slashes are dropped. */
  function Basename(s: string): (r: string)
    ensures '/' !in r
  {
    var t := Paths.RTrim(s);
    t[LastIndexOf(t, '/') + 1..]
  }

  /** The basename is what follows the last '/' of the path without its trailing slashes. */
  lemma BasenameIsLastComponent(s: string)
    ensures var t, r := Paths.RTrim(s), Basename(s);
      && |r| <= |t| && r == t[|t| - |r|..]
      && (|r| < |t| ==> t[|t| - |r| - 1] == '/')
  {
  }

  /** `pathinfo($s, PATHINFO_EXTENSION)`: what follows the last '.' of the basename,
      or "" when the basename has no '.'. */
  function Extension(s: string): (r: string)
    ensures '.' !in r && '/' !in r
    ensures var base := Basename(s);
      r != [] ==> |r| < |base| && base[|base| - |r| - 1] == '.' && r == base[|base| - |r|..]
    ensures r == [] <==> ('.' !in Basename(s) || Basename(s)[|Basename(s)| - 1] == '.')
  {
    var base := Basename(s);
    var i := LastIndexOf(base, '.');
    if i < 0 then ""
    else
      var ext := base[i + 1..];
      assert forall j | 0 <= j < |ext| :: ext[j] == base[i + 1 + j];
      ext
  }

  /** `generateFilename`: `entropy` stands for `random_bytes(20)`, `clientFilename`
      for the upload's client-supplied name (null when absent). */
  function GenerateFilename(entropy: seq<byte>, clientFilename: Option<string>): (r: string)
    requires |entropy| == 20
    ensures |r| >= 40 && r[..40] == Hex(entropy)
    ensures forall i | 0 <= i < 40 :: IsLowerHex(r[i])
    ensures Unhex(r[..40]) == entropy
    ensures var ext := Extension(clientFilename.GetOr(""));
      r[40..] == if ext == "" then "" else "." + ext
  {
    var extension := Extension(clientFilename.GetOr(""));
    var name := Hex(entropy);
    var r := if extension != "" then name + "." + extension else name;
    UnhexHex(entropy);
    assert |name| == 40 && r[..40] == name && r[40..] == r[|name|..];
    r
  }
}
