/** Set identification, section 4 of CSIS v1.0: random set identifiers that only a holder of the set's key can resolve,
    and the encryption of the key. The block cipher and its MAC are parameters. */
module Psri {
  type Block = s: seq<bv8> | |s| == 16 witness ZEROS

  const ZEROS: seq<bv8> := [0, 0, 0, 0, 0, 0, 0, 0, 0, 0, 0, 0, 0, 0, 0, 0]
  const PADDING: seq<bv8> := [0, 0, 0, 0, 0, 0, 0, 0, 0, 0, 0, 0, 0]
  const RSI: bv8 := 0x2E  // the advertising data type of a set identifier

  type Cipher = (Block, Block) -> Block
  type Mac = (Block, seq<bv8>) -> Block

  function Reversed(s: seq<bv8>): (r: seq<bv8>)
    ensures |r| == |s| && forall i | 0 <= i < |s| :: r[i] == s[|s| - 1 - i]
  {
    if s == [] then [] else Reversed(s[1..]) + [s[0]]
  }

  lemma ReversedTwice(s: seq<bv8>)
    ensures Reversed(Reversed(s)) == s
  {
  }

  method Invert(input: array<bv8>, output: array<bv8>, len: nat)
    requires len <= input.Length && len <= output.Length && input != output
    modifies output
    ensures output[..len] == Reversed(input[..len]) && output[len..] == old(output[len..])
  {
    for i := 0 to len
      invariant forall k | 0 <= k < i :: output[k] == input[len - 1 - k]
      invariant output[len..] == old(output[len..])
    {
      output[i] := input[len - 1 - i];
    }
  }

  // ---- generation ----

  /** Two marker bits, and a random part with at least one bit set and one clear. */
  function Prand(r0: bv8, r1: bv8, r2: bv8): (p: seq<bv8>)
    ensures |p| == 3
  {
    [(r0 | 0x40) & 0x7F, r1 | 1, r2 & 0xFE]
  }

  method GeneratePrand(prand: array<bv8>, r0: bv8, r1: bv8, r2: bv8)
    requires prand.Length == 3
    modifies prand
    ensures prand[..] == Prand(r0, r1, r2)
  {
    prand[0], prand[1], prand[2] := r0, r1, r2;
    prand[1] := prand[1] | 1;
    prand[2] := prand[2] & 0xFE;
    prand[0] := prand[0] | 0x40;
    prand[0] := prand[0] & 0x7F;
  }

  /** The 22 random bits below the marker are all equal to those of `octet`. */
  predicate AllRandomBits(p: seq<bv8>, octet: bv8)
    requires |p| == 3
  {
    p[0] & 0x3F == octet & 0x3F && p[1] == octet && p[2] == octet
  }

  /** The two most significant bits are 01, and the 22 random bits are neither all zero nor all one; but for the two
      bits that see to this they are the random input. */
  lemma PrandBits(r0: bv8, r1: bv8, r2: bv8)
    ensures var p := Prand(r0, r1, r2);
      && p[0] & 0xC0 == 0x40
      && !AllRandomBits(p, 0) && !AllRandomBits(p, 0xFF)
      && p[1] & 1 == 1 && p[2] & 1 == 0
      && p[0] & 0x3F == r0 & 0x3F && p[1] & 0xFE == r1 & 0xFE && p[2] & 0xFE == r2 & 0xFE
  {
    Marked(r0);
    OneBit(r1);
    ZeroBit(r2);
  }

  lemma Marked(r: bv8)
    ensures ((r | 0x40) & 0x7F) & 0xC0 == 0x40 && ((r | 0x40) & 0x7F) & 0x3F == r & 0x3F
  {
  }

  lemma OneBit(r: bv8)
    ensures (r | 1) & 1 == 1 && (r | 1) & 0xFE == r & 0xFE
  {
  }

  lemma ZeroBit(r: bv8)
    ensures (r & 0xFE) & 1 == 0 && (r & 0xFE) & 0xFE == r & 0xFE
  {
  }

  function Hash(aes: Cipher, sirk: Block, prand: seq<bv8>): (h: seq<bv8>)
    requires |prand| == 3
    ensures |h| == 3
  {
    aes(sirk, PADDING + prand)[13..]
  }

  /** The identifier that is advertised: hash and random part, least significant octet first. */
  function Identifier(aes: Cipher, sirk: Block, prand: seq<bv8>): (s: seq<bv8>)
    requires |prand| == 3
    ensures |s| == 6
  {
    Reversed(Hash(aes, sirk, prand)) + Reversed(prand)
  }

  /** Where the octets of an identifier come from: the last three octets of the encrypted random part, behind thirteen
      zeros, and the random part, each from its end; the marker bits are in the last octet. */
  lemma IdentifierOctets(aes: Cipher, sirk: Block, prand: seq<bv8>, i: nat)
    requires |prand| == 3 && i < 3
    ensures var s := Identifier(aes, sirk, prand);
      && s[i] == aes(sirk, [0, 0, 0, 0, 0, 0, 0, 0, 0, 0, 0, 0, 0] + prand)[15 - i]
      && s[3 + i] == prand[2 - i]
  {
  }

  method GeneratePsri(aes: Cipher, sirk: Block, r0: bv8, r1: bv8, r2: bv8, psri: array<bv8>)
    requires psri.Length == 6
    modifies psri
    ensures psri[..] == Identifier(aes, sirk, Prand(r0, r1, r2))
  {
    hide Prand, Hash, Reversed;
    var prand := new bv8[3](_ => 0);
    GeneratePrand(prand, r0, r1, r2);
    var hash := Hash(aes, sirk, prand[..]);
    PutReversed(psri, 0, hash);
    PutReversed(psri, 3, prand[..]);
    assert psri[..] == psri[..3] + psri[3..6];
  }

  method PutReversed(out: array<bv8>, at: nat, s: seq<bv8>)
    requires at + |s| <= out.Length
    modifies out
    ensures out[at..at + |s|] == Reversed(s) && out[..at] == old(out[..at])
  {
    for i := 0 to |s|
      invariant forall k | 0 <= k < at :: out[k] == old(out[k])
      invariant forall k | at <= k < at + i :: out[k] == s[|s| - 1 - (k - at)]
    {
      out[at + i] := s[|s| - 1 - i];
    }
  }

  // ---- resolution ----

  datatype Resolution = Member | Stranger | Overrun  // Overrun: a read beyond the advertising data

  predicate Matches(aes: Cipher, sirk: Block, psri: seq<bv8>)
    requires |psri| == 6
  {
    Hash(aes, sirk, Reversed(psri[3..])) == Reversed(psri[..3])
  }

  /** `length` is what is left of the announced length, a sixteen-bit number that wraps. */
  function Resolve(aes: Cipher, sirk: Block, s: seq<bv8>, length: nat): Resolution
    decreases |s|
  {
    if length <= 2 then Stranger
    else if |s| < 2 then Overrun
    else if s[1] == RSI then
      if |s| < 8 then Overrun else if Matches(aes, sirk, s[2..8]) then Member else Stranger
    else
      var n := s[0] as nat + 1;
      if n > |s| then Overrun else Resolve(aes, sirk, s[n..], (length - n) % 0x1_0000)
  }

  method CheckIfBelongsToCoordinatedSet(aes: Cipher, sirk: Block, data: seq<bv8>, adv: nat) returns (r: Resolution)
    requires adv < 0x1_0000
    ensures r == Resolve(aes, sirk, data, adv)
  {
    hide Matches;
    var p: nat, length: nat := 0, adv;
    while length > 2
      invariant 0 <= p <= |data|
      invariant Resolve(aes, sirk, data[p..], length) == Resolve(aes, sirk, data, adv)
      decreases |data| - p
    {
      if p + 2 > |data| {
        return Overrun;
      }
      var currLen := data[p] as nat;
      if data[p + 1] == RSI {
        if p + 8 > |data| {
          return Overrun;
        }
        assert data[p..][2..8] == data[p + 2..p + 8];
        return if Matches(aes, sirk, data[p + 2..p + 8]) then Member else Stranger;
      }
      if p + currLen + 1 > |data| {
        return Overrun;
      }
      assert data[p..][currLen + 1..] == data[p + currLen + 1..];
      p, length := p + currLen + 1, (length as int - (currLen + 1)) % 0x1_0000;
    }
    r := Stranger;
  }

  /** An element of advertising data; `len` counts the type and the value. */
  datatype Element = Element(len: bv8, typ: bv8, value: seq<bv8>)

  predicate WellFormed(es: seq<Element>) {
    forall i | 0 <= i < |es| :: es[i].len as nat == |es[i].value| + 1 && (es[i].typ == RSI ==> |es[i].value| == 6)
  }

  function ElementBytes(e: Element): (s: seq<bv8>)
    ensures |s| == 2 + |e.value| && s[0] == e.len && s[1] == e.typ && s[2..] == e.value
  {
    [e.len, e.typ] + e.value
  }

  function Advertised(es: seq<Element>): seq<bv8>
    requires WellFormed(es)
  {
    if es == [] then [] else ElementBytes(es[0]) + Advertised(es[1..])
  }

  /** The value of the first set identifier, if there is one. */
  function FirstIdentifier(es: seq<Element>): (r: seq<bv8>)
    requires WellFormed(es)
    ensures |r| == 6 || r == []
  {
    if es == [] then [] else if es[0].typ == RSI then es[0].value else FirstIdentifier(es[1..])
  }

  lemma {:induction false} NoIdentifierInTwo(es: seq<Element>)
    requires WellFormed(es) && |Advertised(es)| <= 2
    ensures FirstIdentifier(es) == []
    decreases |es|
  {
    if es != [] {
      assert |ElementBytes(es[0])| <= 2;
      NoIdentifierInTwo(es[1..]);
    }
  }

  /** On well-formed advertising data, whatever else it holds, the resolution is about its first set identifier: the
      advertiser is a member exactly if there is one and its hash is that of its random part under the key. */
  lemma {:induction false} ResolvesFirst(aes: Cipher, sirk: Block, es: seq<Element>)
    requires WellFormed(es) && |Advertised(es)| < 0x1_0000
    ensures var s, psri := Advertised(es), FirstIdentifier(es);
      Resolve(aes, sirk, s, |s|) == if psri != [] && Matches(aes, sirk, psri) then Member else Stranger
    decreases |es|
  {
    hide Matches, ElementBytes, Resolve;
    var s := Advertised(es);
    if |s| <= 2 {
      NoIdentifierInTwo(es);
      ResolveEnd(aes, sirk, s);
    } else {
      ResolveElement(aes, sirk, es[0], Advertised(es[1..]));
      if es[0].typ != RSI {
        ResolvesFirst(aes, sirk, es[1..]);
      }
    }
  }

  lemma ResolveEnd(aes: Cipher, sirk: Block, s: seq<bv8>)
    requires |s| <= 2
    ensures Resolve(aes, sirk, s, |s|) == Stranger
  {
  }

  lemma ResolveElement(aes: Cipher, sirk: Block, e: Element, rest: seq<bv8>)
    requires e.len as nat == |e.value| + 1 && (e.typ == RSI ==> |e.value| == 6)
    requires 2 < |ElementBytes(e) + rest| < 0x1_0000
    ensures var s := ElementBytes(e) + rest;
      Resolve(aes, sirk, s, |s|)
      == if e.typ != RSI then Resolve(aes, sirk, rest, |rest|)
         else if Matches(aes, sirk, e.value) then Member else Stranger
  {
    hide Matches, ElementBytes;
    var head := ElementBytes(e);
    var s := head + rest;
    assert s[0] == head[0] && s[1] == head[1] && s[|head|..] == rest;
    if e.typ == RSI {
      assert s[2..8] == head[2..];
    }
  }

  lemma ResolvePast(aes: Cipher, sirk: Block, e: Element, rest: seq<bv8>, left: nat)
    requires e.len as nat == |e.value| + 1 && e.typ != RSI && 2 < left < |ElementBytes(e)|
    ensures Resolve(aes, sirk, ElementBytes(e) + rest, left)
         == Resolve(aes, sirk, rest, left + 0x1_0000 - |ElementBytes(e)|)
  {
    hide Matches, ElementBytes;
    var head := ElementBytes(e);
    var s := head + rest;
    assert s[0] == head[0] && s[1] == head[1] && s[|head|..] == rest;
  }

  /** Advertising data whose length ends inside an element, but behind its type: the remaining length wraps, and the
      resolution goes on behind the element, in octets that are not announced. */
  lemma {:induction false} ResolvesPastTheEnd(aes: Cipher, sirk: Block, es: seq<Element>, e: Element, rest: seq<bv8>,
                                              left: nat)
    requires WellFormed(es) && (forall i | 0 <= i < |es| :: es[i].typ != RSI)
    requires e.len as nat == |e.value| + 1 && e.typ != RSI && 2 < left < |ElementBytes(e)|
    requires |Advertised(es)| + left < 0x1_0000
    ensures Resolve(aes, sirk, Advertised(es) + (ElementBytes(e) + rest), |Advertised(es)| + left)
         == Resolve(aes, sirk, rest, left + 0x1_0000 - |ElementBytes(e)|)
    decreases |es|
  {
    hide Matches, ElementBytes, Resolve;
    if es == [] {
      assert Advertised(es) + (ElementBytes(e) + rest) == ElementBytes(e) + rest;
      ResolvePast(aes, sirk, e, rest, left);
    } else {
      var behind := Advertised(es[1..]) + (ElementBytes(e) + rest);
      assert Advertised(es) + (ElementBytes(e) + rest) == ElementBytes(es[0]) + behind;
      ResolveOther(aes, sirk, es[0], behind, |Advertised(es)| + left);
      ResolvesPastTheEnd(aes, sirk, es[1..], e, rest, left);
    }
  }

  lemma ResolveOther(aes: Cipher, sirk: Block, e: Element, rest: seq<bv8>, length: nat)
    requires e.len as nat == |e.value| + 1 && e.typ != RSI && |ElementBytes(e)| + 2 < length < 0x1_0000
    ensures Resolve(aes, sirk, ElementBytes(e) + rest, length) == Resolve(aes, sirk, rest, length - |ElementBytes(e)|)
  {
    hide Matches, ElementBytes;
    var head := ElementBytes(e);
    var s := head + rest;
    assert s[0] == head[0] && s[1] == head[1] && s[|head|..] == rest;
  }

  lemma IdentifierMatches(aes: Cipher, sirk: Block, prand: seq<bv8>)
    requires |prand| == 3
    ensures Matches(aes, sirk, Identifier(aes, sirk, prand))
  {
    hide Hash;
    var psri := Identifier(aes, sirk, prand);
    assert psri[3..] == Reversed(prand) && psri[..3] == Reversed(Hash(aes, sirk, prand));
    ReversedTwice(prand);
  }

  /** An identifier generated under a key, behind any other elements and before anything, resolves under that key. */
  lemma GeneratedResolves(aes: Cipher, sirk: Block, r0: bv8, r1: bv8, r2: bv8, before: seq<Element>,
                          after: seq<Element>)
    requires forall i | 0 <= i < |before| :: before[i].typ != RSI
    requires WellFormed(before) && WellFormed(after)
    ensures var es := before + [Element(7, RSI, Identifier(aes, sirk, Prand(r0, r1, r2)))] + after;
      && WellFormed(es)
      && (|Advertised(es)| < 0x1_0000 ==> Resolve(aes, sirk, Advertised(es), |Advertised(es)|) == Member)
  {
    hide Identifier, Prand, Resolve, Matches;
    var e := Element(7, RSI, Identifier(aes, sirk, Prand(r0, r1, r2)));
    var es := before + [e] + after;
    FirstBehind(before, e, after);
    IdentifierMatches(aes, sirk, Prand(r0, r1, r2));
    if |Advertised(es)| < 0x1_0000 {
      ResolvesFirst(aes, sirk, es);
    }
  }

  lemma {:induction false} FirstBehind(before: seq<Element>, e: Element, after: seq<Element>)
    requires (forall i | 0 <= i < |before| :: before[i].typ != RSI) && e.len == 7 && e.typ == RSI && |e.value| == 6
    requires WellFormed(before) && WellFormed(after)
    ensures WellFormed(before + [e] + after) && FirstIdentifier(before + [e] + after) == e.value
  {
    var es := before + [e] + after;
    if before != [] {
      assert es[1..] == before[1..] + [e] + after;
      FirstBehind(before[1..], e, after);
    }
  }

  // ---- the key of the set ----

  function MacBe(mac: Mac, key: Block, input: seq<bv8>): Block {
    Reversed(mac(Reversed(key), Reversed(input)))
  }

  const SIRK_ENC: seq<bv8> := [0x53, 0x49, 0x52, 0x4B, 0x65, 0x6E, 0x63]
  const CSIS: seq<bv8> := [0x63, 0x73, 0x69, 0x73]

  /** The derivation function k1 of the link key, salted with the MAC of "SIRKenc" under the zero key. */
  function Mask(mac: Mac, ltk: Block): Block {
    var salt := MacBe(mac, ZEROS, SIRK_ENC);
    MacBe(mac, MacBe(mac, salt, Reversed(ltk)), CSIS)
  }

  const SIRKENC_STRING := "SIRKenc"
  const CSIS_STRING := "csis"

  /** The octets are the characters of the string. */
  predicate Ascii(s: seq<bv8>, t: string) {
    |s| == |t| && forall i | 0 <= i < |s| :: s[i] as int == t[i] as int
  }

  /** The derivation function k1 of section 4.4 of CSIS v1.0 on big-endian numbers, with the MAC itself: its key is the
      MAC of the first input under the salt, and the salt is the MAC of the string under zero. */
  function K1(cmac: Mac, n: Block, salt: seq<bv8>, p: seq<bv8>): Block {
    cmac(cmac(cmac(ZEROS, salt), n), p)
  }

  /** The mask, from a MAC on octets in reverse order, is what k1 derives from the link key with its most significant
      octet first and the two strings of the standard. */
  lemma MaskIsK1(mac: Mac, cmac: Mac, ltk: Block)
    requires forall k: Block, s :: mac(k, s) == Reversed(cmac(Reversed(k), Reversed(s)))
    ensures Ascii(SIRK_ENC, SIRKENC_STRING) && Ascii(CSIS, CSIS_STRING)
    ensures Mask(mac, ltk) == K1(cmac, Reversed(ltk), SIRK_ENC, CSIS)
  {
    hide Reversed;
    forall k: Block, s: seq<bv8> ensures MacBe(mac, k, s) == cmac(k, s) {
      ReversedTwice(k);
      ReversedTwice(s);
      ReversedTwice(cmac(k, s));
    }
  }

  function XorOctet(a: bv8, b: bv8): bv8 {
    a ^ b
  }

  function Xor(a: seq<bv8>, b: seq<bv8>): (r: seq<bv8>)
    requires |a| == |b|
    ensures |r| == |a| && forall i | 0 <= i < |a| :: r[i] == XorOctet(a[i], b[i])
  {
    seq(|a|, i requires 0 <= i < |a| => XorOctet(a[i], b[i]))
  }

  /** Encryption and decryption alike: the mask is written out, then the input is added to it in place. An input in the
      same memory is lost before it is read, and the output is zero. */
  method Crypt(mac: Mac, ltk: Block, input: array<bv8>, output: array<bv8>)
    requires input.Length == output.Length == 16
    modifies output
    ensures output[..] == if input == output then ZEROS else Xor(Mask(mac, ltk), old(input[..]))
  {
    hide Mask;
    var mask := Mask(mac, ltk);
    for i := 0 to 16
      invariant forall k | 0 <= k < i :: output[k] == mask[k]
    {
      output[i] := mask[i];
    }
    for i := 0 to 16
      invariant input != output ==> input[..] == old(input[..])
      invariant forall k | 0 <= k < 16 ::
                  output[k] == if k >= i then mask[k] else if input == output then 0 else XorOctet(mask[k], input[k])
    {
      XorItself(output[i]);
      output[i] := XorOctet(output[i], input[i]);
    }
  }

  lemma XorItself(a: bv8)
    ensures XorOctet(a, a) == 0
  {
  }

  /** Decryption undoes encryption under the same link key, and only the same mask gives the key back. */
  lemma DecryptEncrypt(mac: Mac, ltk: Block, other: Block, sirk: Block)
    ensures Xor(Mask(mac, other), Xor(Mask(mac, ltk), sirk)) == sirk <==> Mask(mac, other) == Mask(mac, ltk)
  {
    hide Mask;
    XorCancels(Mask(mac, ltk), Mask(mac, other), sirk);
  }

  lemma XorCancels(m: seq<bv8>, n: seq<bv8>, x: seq<bv8>)
    requires |m| == |n| == |x|
    ensures Xor(n, Xor(m, x)) == x <==> n == m
  {
    hide Xor, XorOctet;
    var back := Xor(n, Xor(m, x));
    forall i | 0 <= i < |m| ensures back[i] == x[i] <==> n[i] == m[i] {
      assert back[i] == XorOctet(n[i], XorOctet(m[i], x[i]));
      XorEqual(m[i], n[i], x[i]);
    }
    assert back == x ==> forall i | 0 <= i < |m| :: n[i] == m[i];
  }

  lemma XorEqual(m: bv8, n: bv8, x: bv8)
    ensures XorOctet(n, XorOctet(m, x)) == x <==> n == m
  {
    if n == m {
      XorBack(m, x);
    } else if XorOctet(n, XorOctet(m, x)) == x {
      XorBack(n, XorOctet(m, x));
      XorSame(n, m, x);
    }
  }

  lemma XorBack(m: bv8, x: bv8)
    ensures XorOctet(m, XorOctet(m, x)) == x
  {
  }

  lemma XorSame(n: bv8, m: bv8, x: bv8)
    requires XorOctet(n, x) == XorOctet(m, x)
    ensures n == m
  {
  }
}
