/** The string a request signature covers (internal/protocol/sign.go) and the time window in which
    a signature is accepted (internal/server/http/auth.go). */
module Signing {
  import opened Decimal

  const MAX_SKEW := 300
  const TWO_63: int := 0x8000_0000_0000_0000
  const TWO_64: int := 0x1_0000_0000_0000_0000

  // ---------------------------------------------------------------- the signing string

  /** Joins fields with newlines. */
  function JoinLines(fields: seq<string>): string {
    if |fields| == 0 then "" else if |fields| == 1 then fields[0] else fields[0] + "\n" + JoinLines(fields[1..])
  }

  /** The text before the first newline. */
  function LineLength(s: string): (k: nat)
    ensures k <= |s| && '\n' !in s[..k]
    ensures k < |s| ==> s[k] == '\n'
  {
    if s == "" || s[0] == '\n' then 0 else 1 + LineLength(s[1..])
  }

  function SplitLines(s: string): seq<string>
    decreases |s|
  {
    var k := LineLength(s);
    if k == |s| then [s] else [s[..k]] + SplitLines(s[k + 1..])
  }

  /** upper stands for the upper-casing of the method. */
  function SigningString(upper: string -> string, method_: string, path: string, bodyHash: string, ts: int): string {
    JoinLines([upper(method_), path, bodyHash, FormatInt(ts)])
  }

  lemma {:induction false} LineLengthConcat(line: string, rest: string)
    requires '\n' !in line && (rest == "" || rest[0] == '\n')
    ensures LineLength(line + rest) == |line|
  {
    if line == "" {
      assert line + rest == rest;
    } else {
      assert (line + rest)[1..] == line[1..] + rest;
      LineLengthConcat(line[1..], rest);
    }
  }

  /** Splitting at newlines undoes joining newline-free fields. */
  lemma {:induction false} SplitOfJoin(fields: seq<string>)
    requires |fields| > 0 && forall i :: 0 <= i < |fields| ==> '\n' !in fields[i]
    ensures SplitLines(JoinLines(fields)) == fields
  {
    var line, s := fields[0], JoinLines(fields);
    var rest := if |fields| == 1 then "" else "\n" + JoinLines(fields[1..]);
    assert s == line + rest;
    LineLengthConcat(line, rest);
    if |fields| > 1 {
      assert s[..|line|] == line && s[|line| + 1..] == JoinLines(fields[1..]);
      SplitOfJoin(fields[1..]);
    } else {
      assert s == line;
    }
  }

  lemma FormatIntIsOneLine(n: int)
    ensures '\n' !in FormatInt(n)
  {
    var digits := Itoa(if n < 0 then -n else n);
    assert forall i :: 0 <= i < |digits| ==> IsDigit(digits[i]);
  }

  /** The four fields of a signing string are read back by splitting it. */
  lemma SigningStringSplits(upper: string -> string, method_: string, path: string, bodyHash: string, ts: int)
    requires '\n' !in upper(method_) && '\n' !in path && '\n' !in bodyHash
    ensures SplitLines(SigningString(upper, method_, path, bodyHash, ts))
         == [upper(method_), path, bodyHash, FormatInt(ts)]
  {
    FormatIntIsOneLine(ts);
    SplitOfJoin([upper(method_), path, bodyHash, FormatInt(ts)]);
  }

  /** Two requests with the same signing string are the same request up to the case of the method. */
  lemma SigningStringInjective(upper: string -> string,
                               method1: string, path1: string, hash1: string, ts1: int,
                               method2: string, path2: string, hash2: string, ts2: int)
    requires '\n' !in upper(method1) && '\n' !in path1 && '\n' !in hash1
    requires '\n' !in upper(method2) && '\n' !in path2 && '\n' !in hash2
    requires SigningString(upper, method1, path1, hash1, ts1) == SigningString(upper, method2, path2, hash2, ts2)
    ensures upper(method1) == upper(method2) && path1 == path2 && hash1 == hash2 && ts1 == ts2
  {
    SigningStringSplits(upper, method1, path1, hash1, ts1);
    SigningStringSplits(upper, method2, path2, hash2, ts2);
    var fields1 := [upper(method1), path1, hash1, FormatInt(ts1)];
    var fields2 := [upper(method2), path2, hash2, FormatInt(ts2)];
    assert fields1[0] == fields2[0] && fields1[1] == fields2[1] && fields1[2] == fields2[2] && fields1[3] == fields2[3];
    FormatIntInjective(ts1, ts2);
  }

  // ---------------------------------------------------------------- base64 body hashes

  /** The character for six bits in the alphabet of section 4 of RFC 4648. */
  function Base64Char(d: nat): char
    requires d < 64
  {
    if d < 26 then (65 + d) as char
    else if d < 52 then (71 + d) as char
    else if d < 62 then (d - 4) as char
    else if d == 62 then '+' else '/'
  }

  /** Standard base64 with padding. */
  function Base64(bytes: seq<nat>): string
    requires forall i :: 0 <= i < |bytes| ==> bytes[i] < 256
  {
    if |bytes| == 0 then ""
    else if |bytes| == 1 then
      [Base64Char(bytes[0] / 4), Base64Char(bytes[0] % 4 * 16), '=', '=']
    else if |bytes| == 2 then
      [Base64Char(bytes[0] / 4), Base64Char(bytes[0] % 4 * 16 + bytes[1] / 16), Base64Char(bytes[1] % 16 * 4), '=']
    else
      [Base64Char(bytes[0] / 4), Base64Char(bytes[0] % 4 * 16 + bytes[1] / 16),
       Base64Char(bytes[1] % 16 * 4 + bytes[2] / 64), Base64Char(bytes[2] % 64)] + Base64(bytes[3..])
  }

  /** A base64 body hash is one line, as the signing string needs. */
  lemma {:induction false} Base64IsOneLine(bytes: seq<nat>)
    requires forall i :: 0 <= i < |bytes| ==> bytes[i] < 256
    ensures '\n' !in Base64(bytes)
  {
    if |bytes| > 2 {
      Base64IsOneLine(bytes[3..]);
    }
  }

  lemma CharsDiffer(d: nat, d': nat)
    requires d < 64 && d' < 64
    ensures Base64Char(d) == Base64Char(d') <==> d == d'
    ensures Base64Char(d) != '='
  {
  }

  lemma BytesOfDigits(x: nat, y: nat, x': nat, y': nat)
    requires x < 256 && y < 256 && x' < 256 && y' < 256
    requires x / 4 == x' / 4 && x % 4 * 16 + y / 16 == x' % 4 * 16 + y' / 16
    ensures x == x' && y / 16 == y' / 16
  {
  }

  lemma LastByteOfDigits(y: nat, z: nat, y': nat, z': nat)
    requires y < 256 && z < 256 && y' < 256 && z' < 256 && y / 16 == y' / 16
    requires y % 16 * 4 + z / 64 == y' % 16 * 4 + z' / 64 && z % 64 == z' % 64
    ensures y == y' && z == z'
  {
  }

  predicate Bytes(bytes: seq<nat>) {
    forall i :: 0 <= i < |bytes| ==> bytes[i] < 256
  }

  lemma ThreeBytes(x: nat, y: nat, z: nat, x': nat, y': nat, z': nat)
    requires x < 256 && y < 256 && z < 256 && x' < 256 && y' < 256 && z' < 256
    requires Base64Char(x / 4) == Base64Char(x' / 4)
    requires Base64Char(x % 4 * 16 + y / 16) == Base64Char(x' % 4 * 16 + y' / 16)
    requires Base64Char(y % 16 * 4 + z / 64) == Base64Char(y' % 16 * 4 + z' / 64)
    requires Base64Char(z % 64) == Base64Char(z' % 64)
    ensures x == x' && y == y' && z == z'
  {
    CharsDiffer(x / 4, x' / 4);
    CharsDiffer(x % 4 * 16 + y / 16, x' % 4 * 16 + y' / 16);
    CharsDiffer(y % 16 * 4 + z / 64, y' % 16 * 4 + z' / 64);
    CharsDiffer(z % 64, z' % 64);
    BytesOfDigits(x, y, x', y');
    LastByteOfDigits(y, z, y', z');
  }

  lemma GroupChars(a: seq<nat>)
    requires Bytes(a) && |a| > 2
    ensures var s := Base64(a);
      && |s| >= 4 && s[0] == Base64Char(a[0] / 4) && s[1] == Base64Char(a[0] % 4 * 16 + a[1] / 16)
      && s[2] == Base64Char(a[1] % 16 * 4 + a[2] / 64) && s[3] == Base64Char(a[2] % 64)
  {
  }

  lemma FirstThree(a: seq<nat>, b: seq<nat>)
    requires Bytes(a) && Bytes(b) && |a| > 2 && |b| > 2 && Base64(a) == Base64(b)
    ensures a[..3] == b[..3]
  {
    GroupChars(a);
    GroupChars(b);
    ThreeBytes(a[0], a[1], a[2], b[0], b[1], b[2]);
  }

  lemma FullGroup(a: seq<nat>)
    requires Bytes(a) && |a| > 2
    ensures |Base64(a)| >= 4 && Base64(a)[3] != '=' && Base64(a)[4..] == Base64(a[3..])
  {
    CharsDiffer(a[2] % 64, 0);
  }

  /** Different bytes have different texts. */
  lemma {:induction false} Base64Injective(a: seq<nat>, b: seq<nat>)
    requires Bytes(a) && Bytes(b) && Base64(a) == Base64(b)
    ensures a == b
    decreases |a|
  {
    if |a| > 2 && |b| > 2 {
      FullGroup(a);
      FullGroup(b);
      FirstThree(a, b);
      Base64Injective(a[3..], b[3..]);
      assert a == a[..3] + a[3..] && b == b[..3] + b[3..];
    } else if |a| > 2 {
      FullGroup(a);
    } else if |b| > 2 {
      FullGroup(b);
    } else {
      ShortGroups(a, b);
    }
  }

  lemma ShortGroups(a: seq<nat>, b: seq<nat>)
    requires Bytes(a) && Bytes(b) && |a| <= 2 && |b| <= 2 && Base64(a) == Base64(b)
    ensures a == b
  {
    if a != [] && b != [] {
      var y, y' := if |a| == 2 then a[1] else 0, if |b| == 2 then b[1] else 0;
      var s, t := Base64(a), Base64(b);
      assert s[0] == t[0] && s[1] == t[1] && s[2] == t[2];
      CharsDiffer(a[0] / 4, b[0] / 4);
      CharsDiffer(a[0] % 4 * 16 + y / 16, b[0] % 4 * 16 + y' / 16);
      CharsDiffer(y % 16 * 4, y' % 16 * 4);
      BytesOfDigits(a[0], y, b[0], y');
      LastByteOfDigits(y, 0, y', 0);
    }
  }

  // ---------------------------------------------------------------- the time window

  predicate Int64(x: int) {
    -TWO_63 <= x < TWO_63
  }

  /** The value of an int64 expression whose exact value is x. */
  function Wrap(x: int): int {
    (x + TWO_63) % TWO_64 - TWO_63
  }

  /** The test of the middleware on a wrapping difference. */
  predicate SkewAccepted(now: int, ts: int) {
    var skew := Wrap(now - ts);
    !(skew > MAX_SKEW || skew < -MAX_SKEW)
  }

  lemma WrapOnce(x: int)
    requires -TWO_64 < x < TWO_64
    ensures Wrap(x) == if x < -TWO_63 then x + TWO_64 else if x < TWO_63 then x else x - TWO_64
  {
  }

  /** The clock readings for which wrapping lets no distant timestamp in. */
  predicate SafeClock(now: int) {
    -TWO_63 + 300 <= now < TWO_63 - 300
  }

  /** For every timestamp a client may send, wrapping or not, the window is exactly 300 seconds either
      way; this is so for exactly those clock readings more than 300 seconds from both ends of int64. */
  lemma SkewWindowIff(now: int)
    requires Int64(now)
    ensures (forall ts :: Int64(ts) ==> (SkewAccepted(now, ts) <==> -300 <= now - ts <= 300))
       <==> SafeClock(now)
  {
    if SafeClock(now) {
      forall ts | Int64(ts)
        ensures SkewAccepted(now, ts) <==> -300 <= now - ts <= 300
      {
        WrapOnce(now - ts);
      }
    } else {
      var far := if now < 0 then now - MAX_SKEW + TWO_64 else now + MAX_SKEW - TWO_64;
      WrapOnce(now - far);
      assert Int64(far) && SkewAccepted(now, far);
    }
  }

  /** At the last clock reading the smallest timestamp passes, 2^64 - 1 seconds away. */
  lemma SkewWrapsAround()
    ensures SkewAccepted(TWO_63 - 1, -TWO_63)
  {
    WrapOnce(TWO_63 - 1 + TWO_63);
  }
}
