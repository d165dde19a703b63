/**
 * The cryptographic and encoding library calls the backend relies on, as
 * uninterpreted functions: base64 (raw standard and URL alphabets) and the
 * argon2id key derivation. Only the properties the callers depend on are
 * assumed of them, through the predicate WellBehaved, which every lemma that
 * needs them takes as a precondition.
 */
module Crypto {
  import opened Wrappers

  newtype byte = x: int | 0 <= x < 256

  /** Cost parameters of argon2id: iterations, memory in KiB, lanes, key length. */
  datatype Argon2Params = Argon2Params(time: nat, memoryKiB: nat, threads: nat, keyLen: nat)

  datatype Primitives = Primitives(
    encodeRawStd: seq<byte> -> string,
    decodeRawStd: string -> Option<seq<byte>>,
    encodeUrl: seq<byte> -> string,
    argon2id: (Argon2Params, string, seq<byte>) -> seq<byte>)

  predicate IsAlnum(c: char) {
    'A' <= c <= 'Z' || 'a' <= c <= 'z' || '0' <= c <= '9'
  }

  /** Characters of `base64.RawStdEncoding` output. */
  predicate StdAlphabet(s: string) {
    forall i :: 0 <= i < |s| ==> IsAlnum(s[i]) || s[i] == '+' || s[i] == '/'
  }

  /** Characters of `base64.URLEncoding` output (padding included). */
  predicate UrlAlphabet(s: string) {
    forall i :: 0 <= i < |s| ==> IsAlnum(s[i]) || s[i] == '-' || s[i] == '_' || s[i] == '='
  }

  /**
   * What the callers rely on: decoding undoes encoding, encoders stay inside
   * their alphabets, and argon2id returns a key of the requested length.
   */
  ghost predicate WellBehaved(p: Primitives) {
    (forall b :: p.decodeRawStd(p.encodeRawStd(b)) == Some(b))
    && (forall b :: StdAlphabet(p.encodeRawStd(b)))
    && (forall b :: UrlAlphabet(p.encodeUrl(b)))
    && (forall params, pw, salt :: |p.argon2id(params, pw, salt)| == params.keyLen)
  }

  lemma StdEncodingHasNo(p: Primitives, b: seq<byte>, c: char)
    requires WellBehaved(p)
    requires !IsAlnum(c) && c != '+' && c != '/'
    ensures c !in p.encodeRawStd(b)
  {
    var s := p.encodeRawStd(b);
    assert StdAlphabet(s);
    forall i | 0 <= i < |s|
      ensures s[i] != c
    {
    }
  }

  lemma UrlEncodingHasNo(p: Primitives, b: seq<byte>, c: char)
    requires WellBehaved(p)
    requires !IsAlnum(c) && c != '-' && c != '_' && c != '='
    ensures c !in p.encodeUrl(b)
  {
    var s := p.encodeUrl(b);
    assert UrlAlphabet(s);
    forall i | 0 <= i < |s|
      ensures s[i] != c
    {
    }
  }
}
