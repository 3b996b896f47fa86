/**
 * The attack signature (`generate_signature`): the raw key
 * `path|params|attack_type`, hashed with SHA-256 and written as a lower-case
 * hexadecimal digest. The hash itself is a parameter: a function from the
 * key to 32 bytes, standing for SHA-256 of the key's UTF-8 encoding.
 */
module Signature {
  import opened Text

  newtype Byte = x: int | 0 <= x < 256

  type Digest = d: seq<Byte> | |d| == 32 witness seq(32, _ => 0 as Byte)

  /** `hashlib.sha256(raw.encode()).digest()`, left uninterpreted. */
  type Sha256 = string -> Digest

  /** The lower-case hexadecimal digit of a nibble. */
  function HexDigit(n: int): (c: char)
    requires 0 <= n < 16
    ensures IsHexDigit(c)
  {
    if n < 10 then ('0' as int + n) as char else ('a' as int + n - 10) as char
  }

  predicate IsHexDigit(c: char) {
    '0' <= c <= '9' || 'a' <= c <= 'f'
  }

  /** The raw key `f"{path}|{params}|{attack_type}"`. */
  function RawKey(path: string, params: string, attackType: string): (k: string)
    ensures |k| == |path| + |params| + |attackType| + 2
    ensures k[..|path|] == path && k[|path|] == '|'
    ensures k[|path| + 1..|path| + 1 + |params|] == params && k[|path| + 1 + |params|] == '|'
    ensures k[|path| + |params| + 2..] == attackType
  {
    path + "|" + params + "|" + attackType
  }

  /** `hexdigest()`: two lower-case hexadecimal digits per byte, high nibble first. */
  function HexDigest(d: seq<Byte>): (h: string)
    ensures |h| == 2 * |d|
    ensures forall k :: 0 <= k < |h| ==> IsHexDigit(h[k])
    decreases |d|
  {
    if |d| == 0 then ""
    else [HexDigit(d[0] as int / 16), HexDigit(d[0] as int % 16)] + HexDigest(d[1..])
  }

  /** The value of a hexadecimal digit. */
  function DigitValue(c: char): int {
    if '0' <= c <= '9' then c as int - '0' as int
    else if 'a' <= c <= 'f' then c as int - 'a' as int + 10
    else 0
  }

  /** Reading a hexadecimal digest back into bytes. */
  function ParseHex(h: string): seq<Byte>
    requires |h| % 2 == 0
    requires forall k :: 0 <= k < |h| ==> IsHexDigit(h[k])
    decreases |h|
  {
    if |h| == 0 then []
    else
      var hi := DigitValue(h[0]);
      var lo := DigitValue(h[1]);
      assert IsHexDigit(h[0]) && IsHexDigit(h[1]);
      [(16 * hi + lo) as Byte] + ParseHex(h[2..])
  }

  /** `generate_signature(path, params, attack_type)`: a 64-character lower-case hex string. */
  function GenerateSignature(path: string, params: string, attackType: string, sha256: Sha256): (sig: string)
    ensures |sig| == 64
    ensures forall k :: 0 <= k < |sig| ==> IsHexDigit(sig[k])
  {
    HexDigest(sha256(RawKey(path, params, attackType)))
  }

  /** Reading a digit back gives its nibble. */
  lemma DigitRoundTrip(n: int)
    requires 0 <= n < 16
    ensures DigitValue(HexDigit(n)) == n
  {
  }

  /** The first byte of a digest, read back from its first two digits. */
  lemma FirstByteRoundTrip(b: Byte)
    ensures (16 * DigitValue(HexDigit(b as int / 16)) + DigitValue(HexDigit(b as int % 16))) as Byte == b
  {
    DigitRoundTrip(b as int / 16);
    DigitRoundTrip(b as int % 16);
  }

  /** The hex encoding loses nothing: reading it back gives the bytes. */
  lemma {:induction false} ParseHexDigest(d: seq<Byte>)
    ensures ParseHex(HexDigest(d)) == d
    decreases |d|
  {
    if |d| > 0 {
      var h := HexDigest(d);
      var rest := HexDigest(d[1..]);
      assert h == [HexDigit(d[0] as int / 16), HexDigit(d[0] as int % 16)] + rest;
      assert h[2..] == rest;
      FirstByteRoundTrip(d[0]);
      ParseHexDigest(d[1..]);
      assert d == [d[0]] + d[1..];
    }
  }

  /** Two signatures are equal exactly when the hash gives the two raw keys the same digest. */
  lemma SignatureIdentifiesDigest(path1: string, params1: string, type1: string,
                                  path2: string, params2: string, type2: string, sha256: Sha256)
    ensures GenerateSignature(path1, params1, type1, sha256) == GenerateSignature(path2, params2, type2, sha256)
        <==> sha256(RawKey(path1, params1, type1)) == sha256(RawKey(path2, params2, type2))
  {
    ParseHexDigest(sha256(RawKey(path1, params1, type1)));
    ParseHexDigest(sha256(RawKey(path2, params2, type2)));
  }

  /** The signature depends on the arguments only through the raw key. */
  lemma SameRawKeySameSignature(path1: string, params1: string, type1: string,
                                path2: string, params2: string, type2: string, sha256: Sha256)
    requires RawKey(path1, params1, type1) == RawKey(path2, params2, type2)
    ensures GenerateSignature(path1, params1, type1, sha256) == GenerateSignature(path2, params2, type2, sha256)
  {
  }

  /** When no part contains `|`, the raw key splits back into path, params and attack type, in that order. */
  lemma RawKeySplits(path: string, params: string, attackType: string)
    requires '|' !in path && '|' !in params && '|' !in attackType
    ensures Split(RawKey(path, params, attackType), '|') == [path, params, attackType]
  {
    var parts := [path, params, attackType];
    assert Join(parts[1..], '|') == params + "|" + attackType;
    assert Join(parts, '|') == RawKey(path, params, attackType);
    SplitJoin(parts, '|');
  }

  /** Hence, for `|`-free parts, different triples have different raw keys. */
  lemma RawKeyInjective(path1: string, params1: string, type1: string,
                        path2: string, params2: string, type2: string)
    requires '|' !in path1 && '|' !in params1 && '|' !in type1
    requires '|' !in path2 && '|' !in params2 && '|' !in type2
    requires RawKey(path1, params1, type1) == RawKey(path2, params2, type2)
    ensures path1 == path2 && params1 == params2 && type1 == type2
  {
    RawKeySplits(path1, params1, type1);
    RawKeySplits(path2, params2, type2);
  }

  /**
   * A `|` inside a part makes two different triples collide: `("a|b", "c", t)`
   * and `("a", "b|c", t)` have one raw key and so one signature for every hash.
   */
  lemma RawKeyCollision(attackType: string, sha256: Sha256)
    ensures ("a|b", "c") != ("a", "b|c")
    ensures GenerateSignature("a|b", "c", attackType, sha256) == GenerateSignature("a", "b|c", attackType, sha256)
  {
    assert RawKey("a|b", "c", attackType) == RawKey("a", "b|c", attackType);
  }
}
