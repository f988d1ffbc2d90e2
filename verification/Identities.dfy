/**
 Canonical identities: length-prefixed, domain-separated digests.
 The hash is an arbitrary function from bytes to 64 hexadecimal characters.
 */
module Identities {
  import opened Utf8

  type Hex64 = s: string | |s| == 64 witness seq(64, _ => '0')

  type Hash = seq<byte> -> Hex64

  /** Identity constructors bound every identity; file identities are the longest. */
  type Identity = s: string | |s| <= 4096

  const MAX_PART: nat := 0x1_0000_0000_0000_0000

  function Pow256(width: nat): nat {
    if width == 0 then 1 else 256 * Pow256(width - 1)
  }

  /** `n.to_bytes(width, "big")`. */
  function BigEndian(n: nat, width: nat): (b: seq<byte>)
    ensures |b| == width
  {
    if width == 0 then [] else BigEndian(n / 256, width - 1) + [n % 256]
  }

  lemma {:induction false} BigEndianInjective(n: nat, m: nat, width: nat)
    requires n < Pow256(width) && m < Pow256(width) && BigEndian(n, width) == BigEndian(m, width)
    ensures n == m
  {
    if width > 0 {
      var s, t := BigEndian(n, width), BigEndian(m, width);
      assert s[width - 1] == n % 256 && t[width - 1] == m % 256;
      assert s[..width - 1] == BigEndian(n / 256, width - 1) && t[..width - 1] == BigEndian(m / 256, width - 1);
      BigEndianInjective(n / 256, m / 256, width - 1);
    }
  }

  /** Digest parts are prefixed with their length in 8 bytes. */
  function Length8(n: nat): (b: seq<byte>)
    ensures |b| == 8
  {
    BigEndian(n, 8)
  }

  lemma Length8Injective(n: nat, m: nat)
    requires n < MAX_PART && m < MAX_PART && Length8(n) == Length8(m)
    ensures n == m
  {
    assert Pow256(8) == 256 * 256 * 256 * 256 * 256 * 256 * 256 * 256;
    BigEndianInjective(n, m, 8);
  }

  ghost predicate SmallParts(parts: seq<string>) {
    forall i :: 0 <= i < |parts| ==> |Encode(parts[i])| < MAX_PART
  }

  function PartBytes(part: string): seq<byte>
    requires |Encode(part)| < MAX_PART
  {
    Length8(|Encode(part)|) + Encode(part)
  }

  function PartsBytes(parts: seq<string>): seq<byte>
    requires SmallParts(parts)
  {
    if parts == [] then [] else PartBytes(parts[0]) + PartsBytes(parts[1..])
  }

  /** Everything the digest of a part list absorbs, the domain included. */
  function DomainBytes(domain: string, parts: seq<string>): seq<byte>
    requires SmallParts([domain] + parts)
  {
    PartsBytes([domain] + parts)
  }

  lemma PartPrefixFree(a: string, b: string, x: seq<byte>, y: seq<byte>)
    requires |Encode(a)| < MAX_PART && |Encode(b)| < MAX_PART
    requires PartBytes(a) + x == PartBytes(b) + y
    ensures a == b && x == y
  {
    var s, t := PartBytes(a) + x, PartBytes(b) + y;
    assert s[..8] == Length8(|Encode(a)|) && t[..8] == Length8(|Encode(b)|);
    Length8Injective(|Encode(a)|, |Encode(b)|);
    var n := 8 + |Encode(a)|;
    assert s[8..n] == Encode(a) && t[8..n] == Encode(b);
    EncodeInjective(a, b);
    assert s[n..] == x && t[n..] == y;
  }

  /** Two different part lists never feed the same bytes to the digest. */
  lemma {:induction false} PartsBytesInjective(a: seq<string>, b: seq<string>)
    requires SmallParts(a) && SmallParts(b) && PartsBytes(a) == PartsBytes(b)
    ensures a == b
  {
    if a != [] && b != [] {
      PartPrefixFree(a[0], b[0], PartsBytes(a[1..]), PartsBytes(b[1..]));
      PartsBytesInjective(a[1..], b[1..]);
      assert a == [a[0]] + a[1..] && b == [b[0]] + b[1..];
    }
  }

  // ----- decimal rendering of line numbers and token counts -----

  const DIGITS: string := "0123456789"

  function Decimal(n: nat): (s: string)
    ensures |s| >= 1 && (n >= 10 ==> |s| >= 2) && |s| <= n + 1
  {
    if n < 10 then [DIGITS[n]] else Decimal(n / 10) + [DIGITS[n % 10]]
  }

  /** The last digit of a rendering, and the rendering before it. */
  lemma DecimalEnds(n: nat)
    ensures var s := Decimal(n);
            && s[|s| - 1] == DIGITS[n % 10]
            && s[..|s| - 1] == if n < 10 then [] else Decimal(n / 10)
  {
  }

  lemma DigitsDiffer(a: nat, b: nat)
    requires a < 10 && b < 10 && DIGITS[a] == DIGITS[b]
    ensures a == b
  {
  }

  lemma {:induction false} DecimalInjective(n: nat, m: nat)
    requires Decimal(n) == Decimal(m)
    ensures n == m
  {
    hide Decimal;
    DecimalEnds(n);
    DecimalEnds(m);
    DigitsDiffer(n % 10, m % 10);
    if n >= 10 && m >= 10 { DecimalInjective(n / 10, m / 10); }
  }

  lemma {:induction false} EncodeUpper(s: string)
    ensures |Encode(s)| <= 4 * |s|
  {
    if s != "" { EncodeUpper(s[1..]); }
  }

  // ----- the identities themselves -----

  const CANDIDATE_DOMAIN: string := "testgap.rag-003.candidate-identity.v1"
  const ITEM_DOMAIN: string := "testgap.rag-005.context-item.v1"

  lemma SmallList(parts: seq<string>)
    requires forall i :: 0 <= i < |parts| ==> |parts[i]| < 0x1000_0000_0000_0000
    ensures SmallParts(parts)
  {
    forall i | 0 <= i < |parts|
      ensures |Encode(parts[i])| < MAX_PART
    {
      EncodeUpper(parts[i]);
    }
  }

  /** candidate_identity separates its parts by a 0x1f byte after each of them. */
  function CandidateBytes(parts: seq<string>): seq<byte>
    requires SmallParts(parts)
  {
    if parts == [] then [] else PartBytes(parts[0]) + [0x1f] + CandidateBytes(parts[1..])
  }

  function CandidateParts(repository: Identity, revision: Identity, file: Identity): (parts: seq<string>)
    ensures SmallParts(parts)
  {
    var parts := [CANDIDATE_DOMAIN, repository, revision, file];
    SmallList(parts);
    parts
  }

  function Prefixed(prefix: string, hex: Hex64): (s: string)
    ensures |s| == |prefix| + 64
  {
    prefix + hex
  }

  /** Everything the digest of a candidate identity absorbs. */
  function CandidateInput(repository: Identity, revision: Identity, file: Identity): seq<byte> {
    CandidateBytes(CandidateParts(repository, revision, file))
  }

  function CandidateIdentity(h: Hash, repository: Identity, revision: Identity, file: Identity): Identity {
    Prefixed("candidate:", h(CandidateInput(repository, revision, file)))
  }

  lemma {:induction false} CandidateBytesInjective(a: seq<string>, b: seq<string>)
    requires SmallParts(a) && SmallParts(b) && CandidateBytes(a) == CandidateBytes(b)
    ensures a == b
  {
    hide PartBytes;
    if a != [] && b != [] {
      var x, y := [0x1f] + CandidateBytes(a[1..]), [0x1f] + CandidateBytes(b[1..]);
      assert CandidateBytes(a) == PartBytes(a[0]) + x && CandidateBytes(b) == PartBytes(b[0]) + y;
      PartPrefixFree(a[0], b[0], x, y);
      assert x[1..] == CandidateBytes(a[1..]) && y[1..] == CandidateBytes(b[1..]);
      CandidateBytesInjective(a[1..], b[1..]);
      assert a == [a[0]] + a[1..] && b == [b[0]] + b[1..];
    }
  }

  lemma CandidateInputInjective(repository: Identity, revision: Identity, a: Identity, b: Identity)
    requires CandidateInput(repository, revision, a) == CandidateInput(repository, revision, b)
    ensures a == b
  {
    hide CandidateBytes, SmallParts;
    CandidateBytesInjective(CandidateParts(repository, revision, a), CandidateParts(repository, revision, b));
    assert CandidateParts(repository, revision, a)[3] == CandidateParts(repository, revision, b)[3];
  }

  /** The digest maps the two different inputs of these files' candidate identities to one value. */
  ghost predicate FilesCollide(h: Hash, repository: Identity, revision: Identity, a: Identity, b: Identity) {
    && CandidateInput(repository, revision, a) != CandidateInput(repository, revision, b)
    && h(CandidateInput(repository, revision, a)) == h(CandidateInput(repository, revision, b))
  }

  /** Two different files share a candidate identity exactly when the digest collides on their two inputs. */
  lemma SharedCandidateIsCollision(h: Hash, repository: Identity, revision: Identity, a: Identity, b: Identity)
    requires a != b
    ensures CandidateIdentity(h, repository, revision, a) == CandidateIdentity(h, repository, revision, b)
            <==> FilesCollide(h, repository, revision, a, b)
  {
    hide CandidateInput, Prefixed;
    if CandidateInput(repository, revision, a) == CandidateInput(repository, revision, b) {
      CandidateInputInjective(repository, revision, a, b);
    }
    var x, y := h(CandidateInput(repository, revision, a)), h(CandidateInput(repository, revision, b));
    if Prefixed("candidate:", x) == Prefixed("candidate:", y) { PrefixedInjective("candidate:", x, y); }
  }

  /** What a context item identity digests. */
  datatype ItemKey = ItemKey(
    repository: Identity, revision: Identity, candidate: Identity, file: Identity,
    start: nat, end: nat, contentSha: Hex64, tokens: nat)

  const TRUST_LABEL: string := "UNTRUSTED_REPOSITORY_TEXT"

  ghost predicate BoundedKey(k: ItemKey) {
    k.start < 0x1_0000_0000 && k.end < 0x1_0000_0000 && k.tokens < 0x1_0000_0000
  }

  function KeyParts(k: ItemKey): (parts: seq<string>)
    ensures |parts| == 9
  {
    [k.repository, k.revision, k.candidate, k.file, Decimal(k.start), Decimal(k.end), k.contentSha, TRUST_LABEL,
     Decimal(k.tokens)]
  }

  lemma KeyPartsInjective(k: ItemKey, m: ItemKey)
    requires KeyParts(k) == KeyParts(m)
    ensures k == m
  {
    var a, b := KeyParts(k), KeyParts(m);
    assert a[0] == b[0] && a[1] == b[1] && a[2] == b[2] && a[3] == b[3] && a[6] == b[6];
    assert a[4] == b[4] && a[5] == b[5] && a[8] == b[8];
    DecimalInjective(k.start, m.start);
    DecimalInjective(k.end, m.end);
    DecimalInjective(k.tokens, m.tokens);
  }

  /** Items that differ in any provenance field are digested from different bytes. */
  lemma ItemBytesInjective(k: ItemKey, m: ItemKey, domain: string)
    requires SmallParts([domain] + KeyParts(k)) && SmallParts([domain] + KeyParts(m))
    requires DomainBytes(domain, KeyParts(k)) == DomainBytes(domain, KeyParts(m))
    ensures k == m
  {
    PartsBytesInjective([domain] + KeyParts(k), [domain] + KeyParts(m));
    assert ([domain] + KeyParts(k))[1..] == KeyParts(k) && ([domain] + KeyParts(m))[1..] == KeyParts(m);
    KeyPartsInjective(k, m);
  }

  lemma SmallKey(k: ItemKey)
    requires BoundedKey(k)
    ensures SmallParts([ITEM_DOMAIN] + KeyParts(k))
  {
    var parts := [ITEM_DOMAIN] + KeyParts(k);
    assert parts[1..] == KeyParts(k);
    forall i | 0 <= i < |parts|
      ensures |parts[i]| < 0x1000_0000_0000_0000
    {
      if i > 0 { assert parts[i] == KeyParts(k)[i - 1]; }
    }
    SmallList(parts);
  }

  function ItemBytes(k: ItemKey): seq<byte>
    requires BoundedKey(k)
  {
    SmallKey(k);
    DomainBytes(ITEM_DOMAIN, KeyParts(k))
  }

  function ItemIdentity(h: Hash, k: ItemKey): Identity
    requires BoundedKey(k)
  {
    Prefixed("context-item:", h(ItemBytes(k)))
  }

  /** The digest maps the two different inputs of these items to one value. */
  ghost predicate Collide(h: Hash, k: ItemKey, m: ItemKey) {
    BoundedKey(k) && BoundedKey(m) && ItemBytes(k) != ItemBytes(m) && h(ItemBytes(k)) == h(ItemBytes(m))
  }

  /** Two different items share an identity only if the hash collides on two different inputs. */
  lemma SharedIdentityIsCollision(h: Hash, k: ItemKey, m: ItemKey)
    requires BoundedKey(k) && BoundedKey(m) && k != m
    requires ItemIdentity(h, k) == ItemIdentity(h, m)
    ensures ItemBytes(k) != ItemBytes(m) && h(ItemBytes(k)) == h(ItemBytes(m))
  {
    SmallKey(k);
    SmallKey(m);
    if ItemBytes(k) == ItemBytes(m) { ItemBytesInjective(k, m, ITEM_DOMAIN); }
    PrefixedInjective("context-item:", h(ItemBytes(k)), h(ItemBytes(m)));
  }

  lemma PrefixedInjective(prefix: string, a: Hex64, b: Hex64)
    requires Prefixed(prefix, a) == Prefixed(prefix, b)
    ensures a == b
  {
    assert Prefixed(prefix, a)[|prefix|..] == a && Prefixed(prefix, b)[|prefix|..] == b;
  }
}
