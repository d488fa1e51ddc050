/**
 Key material: a prefix followed by unpadded base32 (sections 6 and 3.2 of
 RFC 4648) of 32 random bytes, and the hash it is looked up by.
 */
module Keymat {
  import opened Domain

  const RANDOM_BYTES := 32
  const ENCODED_LENGTH := 52

  // ------------------------------------------------------------------
  // Base32
  // ------------------------------------------------------------------

  type digit = bv5

  function Letter(d: digit): (c: char)
    ensures Value(c) == d
  {
    if d < 26 then 'A' + d as char else '2' + (d - 26) as char
  }

  // Defined on the alphabet; every other character counts as zero.
  function Value(c: char): digit {
    if 'A' <= c <= 'Z' then (c - 'A') as digit
    else if '2' <= c <= '7' then (c - '2') as digit + 26
    else 0
  }

  // Five bytes, as eight five-bit digits.
  function Digits(b: Bytes): (ds: seq<digit>)
    requires |b| == 5
    ensures |ds| == 8
  {
    [ (b[0] >> 3) as digit,
      (((b[0] << 2) | (b[1] >> 6)) & 31) as digit,
      ((b[1] >> 1) & 31) as digit,
      (((b[1] << 4) | (b[2] >> 4)) & 31) as digit,
      (((b[2] << 1) | (b[3] >> 7)) & 31) as digit,
      ((b[3] >> 2) & 31) as digit,
      (((b[3] << 3) | (b[4] >> 5)) & 31) as digit,
      (b[4] & 31) as digit ]
  }

  function Undigits(ds: seq<digit>): (b: Bytes)
    requires |ds| == 8
    ensures |b| == 5
  {
    [ (ds[0] as byte << 3) | (ds[1] as byte >> 2),
      (ds[1] as byte << 6) | (ds[2] as byte << 1) | (ds[3] as byte >> 4),
      (ds[3] as byte << 4) | (ds[4] as byte >> 1),
      (ds[4] as byte << 7) | (ds[5] as byte << 2) | (ds[6] as byte >> 3),
      (ds[6] as byte << 5) | ds[7] as byte ]
  }

  function Letters(ds: seq<digit>): (s: string)
    ensures |s| == |ds|
    ensures forall i :: 0 <= i < |ds| ==> Value(s[i]) == ds[i]
  {
    seq(|ds|, i requires 0 <= i < |ds| => Letter(ds[i]))
  }

  function Values(s: string): (ds: seq<digit>)
    ensures |ds| == |s|
  {
    seq(|s|, i requires 0 <= i < |s| => Value(s[i]))
  }

  // How many letters an unpadded final group of n < 5 bytes takes.
  function TailLetters(n: nat): nat
    requires n < 5
  {
    [0, 2, 4, 5, 7][n]
  }

  function Zeros<T>(n: nat, zero: T): seq<T> {
    seq(n, _ => zero)
  }

  function Encode(b: Bytes): (s: string) {
    if |b| >= 5 then
      Letters(Digits(b[..5])) + Encode(b[5..])
    else
      Letters(Digits(b + Zeros(5 - |b|, 0 as byte))[..TailLetters(|b|)])
  }

  function Decode(s: string): Bytes {
    if |s| >= 8 then
      Undigits(Values(s[..8])) + Decode(s[8..])
    else
      Undigits(Values(s) + Zeros(8 - |s|, 0 as digit))[..|s| * 5 / 8]
  }

  lemma UndigitsInverts(b: Bytes)
    requires |b| == 5
    ensures Undigits(Digits(b)) == b
  {
  }

  lemma ValuesOfLetters(ds: seq<digit>)
    ensures Values(Letters(ds)) == ds
  {
  }

  lemma DecodeBlock(ds: seq<digit>, rest: string)
    requires |ds| == 8
    ensures Decode(Letters(ds) + rest) == Undigits(ds) + Decode(rest)
  {
    var s := Letters(ds) + rest;
    assert s[..8] == Letters(ds) && s[8..] == rest;
    ValuesOfLetters(ds);
  }

  lemma DecodeTail(ds: seq<digit>, n: nat)
    requires |ds| == 8 && n < 8
    requires forall i :: n <= i < 8 ==> ds[i] == 0
    ensures Decode(Letters(ds[..n])) == Undigits(ds)[..n * 5 / 8]
  {
    ValuesOfLetters(ds[..n]);
    assert ds[..n] + Zeros(8 - n, 0 as digit) == ds;
  }

  lemma TailRoundTrip(b: Bytes)
    requires |b| < 5
    ensures Decode(Encode(b)) == b
  {
    var padded: Bytes, n := b + Zeros(5 - |b|, 0 as byte), TailLetters(|b|);
    TailDigitsZero(padded, |b|);
    DecodeTail(Digits(padded), n);
    UndigitsInverts(padded);
    assert n * 5 / 8 == |b|;
    assert padded[..|b|] == b;
  }

  // Padding bytes contribute only zero digits after the tail letters.
  lemma TailDigitsZero(b: Bytes, k: nat)
    requires |b| == 5 && k < 5
    requires forall i :: k <= i < 5 ==> b[i] == 0
    ensures forall i :: TailLetters(k) <= i < 8 ==> Digits(b)[i] == 0
  {
  }

  lemma {:induction false} DecodeInvertsEncode(b: Bytes)
    ensures Decode(Encode(b)) == b
  {
    if |b| < 5 {
      TailRoundTrip(b);
    } else {
      DecodeBlock(Digits(b[..5]), Encode(b[5..]));
      UndigitsInverts(b[..5]);
      DecodeInvertsEncode(b[5..]);
      assert b[..5] + b[5..] == b;
    }
  }

  // Five bytes take eight letters, and a tail of n bytes takes TailLetters(n).
  lemma {:induction false} EncodedLength(b: Bytes, blocks: nat, tail: nat)
    requires |b| == 5 * blocks + tail && tail < 5
    ensures |Encode(b)| == 8 * blocks + TailLetters(tail)
  {
    if blocks > 0 {
      EncodedLength(b[5..], blocks - 1, tail);
    }
  }

  // ------------------------------------------------------------------
  // What the letters spell
  // ------------------------------------------------------------------

  // The standard alphabet, table 3 of RFC 4648.
  const ALPHABET := "ABCDEFGHIJKLMNOPQRSTUVWXYZ234567"

  // Five-bit numbers and bytes bit by bit, most significant first.
  function Five(d: digit): (bits: seq<bool>)
    ensures |bits| == 5
  {
    [d & 16 != 0, d & 8 != 0, d & 4 != 0, d & 2 != 0, d & 1 != 0]
  }

  function Eight(b: byte): (bits: seq<bool>)
    ensures |bits| == 8
  {
    [b & 128 != 0, b & 64 != 0, b & 32 != 0, b & 16 != 0, b & 8 != 0, b & 4 != 0, b & 2 != 0, b & 1 != 0]
  }

  function DigitBits(ds: seq<digit>): (bits: seq<bool>)
    ensures |bits| == 5 * |ds|
  {
    if ds == [] then [] else Five(ds[0]) + DigitBits(ds[1..])
  }

  function ByteBits(bytes: Bytes): (bits: seq<bool>)
    ensures |bits| == 8 * |bytes|
  {
    if bytes == [] then [] else Eight(bytes[0]) + ByteBits(bytes[1..])
  }

  lemma {:induction false} DigitBitsJoin(ds: seq<digit>, es: seq<digit>)
    ensures DigitBits(ds + es) == DigitBits(ds) + DigitBits(es)
  {
    if ds == [] {
      assert ds + es == es;
    } else {
      assert (ds + es)[1..] == ds[1..] + es;
      DigitBitsJoin(ds[1..], es);
    }
  }

  lemma {:induction false} ByteBitsJoin(a: Bytes, b: Bytes)
    ensures ByteBits(a + b) == ByteBits(a) + ByteBits(b)
  {
    if a == [] {
      assert a + b == b;
    } else {
      assert (a + b)[1..] == a[1..] + b;
      ByteBitsJoin(a[1..], b);
    }
  }

  lemma {:induction false} ZeroBits(n: nat)
    ensures ByteBits(Zeros(n, 0 as byte)) == Zeros(8 * n, false)
  {
    if n > 0 {
      assert Zeros(n, 0 as byte)[1..] == Zeros(n - 1, 0 as byte);
      ZeroBits(n - 1);
    }
  }

  // Which bits of the bytes each digit of a group takes.
  lemma FromThird(b: byte)
    ensures Five((b >> 3) as digit) == Eight(b)[..5]
  {
  }

  lemma FromSecond(b: byte)
    ensures Five(((b >> 2) & 31) as digit) == Eight(b)[1..6]
  {
  }

  lemma FromFirst(b: byte)
    ensures Five(((b >> 1) & 31) as digit) == Eight(b)[2..7]
  {
  }

  lemma FromLast(b: byte)
    ensures Five((b & 31) as digit) == Eight(b)[3..]
  {
  }

  lemma ThreeAndTwo(a: byte, b: byte)
    ensures Five((((a << 2) | (b >> 6)) & 31) as digit) == Eight(a)[5..] + Eight(b)[..2]
  {
  }

  lemma OneAndFour(a: byte, b: byte)
    ensures Five((((a << 4) | (b >> 4)) & 31) as digit) == Eight(a)[7..] + Eight(b)[..4]
  {
  }

  lemma FourAndOne(a: byte, b: byte)
    ensures Five((((a << 1) | (b >> 7)) & 31) as digit) == Eight(a)[4..] + Eight(b)[..1]
  {
  }

  lemma TwoAndThree(a: byte, b: byte)
    ensures Five((((a << 3) | (b >> 5)) & 31) as digit) == Eight(a)[6..] + Eight(b)[..3]
  {
  }

  lemma {:induction false} FiveBytes(b: Bytes)
    requires |b| == 5
    ensures ByteBits(b) == Eight(b[0]) + Eight(b[1]) + Eight(b[2]) + Eight(b[3]) + Eight(b[4])
  {
    assert b == [b[0]] + [b[1]] + [b[2]] + [b[3]] + [b[4]];
    ByteBitsJoin([b[0]] + [b[1]] + [b[2]] + [b[3]], [b[4]]);
    ByteBitsJoin([b[0]] + [b[1]] + [b[2]], [b[3]]);
    ByteBitsJoin([b[0]] + [b[1]], [b[2]]);
    ByteBitsJoin([b[0]], [b[1]]);
    assert forall i :: 0 <= i < 5 ==> [b[i]][1..] == [];
    assert forall i :: 0 <= i < 5 ==> ByteBits([b[i]]) == Eight(b[i]);
  }

  lemma {:induction false} EightDigits(d: seq<digit>)
    requires |d| == 8
    ensures DigitBits(d) == Five(d[0]) + Five(d[1]) + Five(d[2]) + Five(d[3]) + Five(d[4]) + Five(d[5]) + Five(d[6]) + Five(d[7])
  {
    DigitBitsJoin(d[..4], d[4..]);
    FourDigits(d[..4]);
    FourDigits(d[4..]);
    assert d == d[..4] + d[4..];
  }

  lemma {:induction false} FourDigits(d: seq<digit>)
    requires |d| == 4
    ensures DigitBits(d) == Five(d[0]) + Five(d[1]) + Five(d[2]) + Five(d[3])
  {
    assert d == [d[0]] + [d[1]] + [d[2]] + [d[3]];
    DigitBitsJoin([d[0]] + [d[1]] + [d[2]], [d[3]]);
    DigitBitsJoin([d[0]] + [d[1]], [d[2]]);
    DigitBitsJoin([d[0]], [d[1]]);
    assert forall i :: 0 <= i < 4 ==> [d[i]][1..] == [];
    assert forall i :: 0 <= i < 4 ==> DigitBits([d[i]]) == Five(d[i]);
  }

  // Eight slices of five, out of five of eight.
  lemma Regrouped(a: seq<bool>, b: seq<bool>, c: seq<bool>, d: seq<bool>, e: seq<bool>)
    requires |a| == |b| == |c| == |d| == |e| == 8
    ensures a[..5] + (a[5..] + b[..2]) + b[2..7] + (b[7..] + c[..4]) + (c[4..] + d[..1]) + d[1..6] + (d[6..] + e[..3]) + e[3..]
         == a + b + c + d + e
  {
  }

  lemma GroupBits(b: Bytes)
    requires |b| == 5
    ensures DigitBits(Digits(b)) == ByteBits(b)
  {
    FiveBytes(b);
    EightDigits(Digits(b));
    FromThird(b[0]);
    ThreeAndTwo(b[0], b[1]);
    FromFirst(b[1]);
    OneAndFour(b[1], b[2]);
    FourAndOne(b[2], b[3]);
    FromSecond(b[3]);
    TwoAndThree(b[3], b[4]);
    FromLast(b[4]);
    Regrouped(Eight(b[0]), Eight(b[1]), Eight(b[2]), Eight(b[3]), Eight(b[4]));
  }

  lemma LetterIsStandard(d: digit)
    ensures Letter(d) == ALPHABET[d as int]
  {
  }

  // The letters stand for these five-bit numbers, in the standard alphabet.
  predicate Spells(s: string, ds: seq<digit>) {
    |ds| == |s| && forall i :: 0 <= i < |s| ==> s[i] == ALPHABET[ds[i] as int]
  }

  lemma LettersSpell(ds: seq<digit>)
    ensures Spells(Letters(ds), ds)
  {
    forall i | 0 <= i < |ds| ensures Letters(ds)[i] == ALPHABET[ds[i] as int] {
      LetterIsStandard(ds[i]);
    }
  }

  lemma SpellsJoin(s: string, ds: seq<digit>, t: string, es: seq<digit>)
    requires Spells(s, ds) && Spells(t, es)
    ensures Spells(s + t, ds + es)
  {
  }

  // The digits, bit by bit, are the bytes filled up with zero bits.
  predicate BitsOf(ds: seq<digit>, b: Bytes) {
    |ds| == (8 * |b| + 4) / 5 && DigitBits(ds) == ByteBits(b) + Zeros(5 * |ds| - 8 * |b|, false)
  }

  lemma {:induction false} TailBits(all: seq<digit>, b: Bytes, n: nat)
    requires |all| == 8 && |b| < 5 && n == TailLetters(|b|)
    requires DigitBits(all) == ByteBits(b + Zeros(5 - |b|, 0 as byte))
    ensures BitsOf(all[..n], b)
  {
    ByteBitsJoin(b, Zeros(5 - |b|, 0 as byte));
    ZeroBits(5 - |b|);
    DigitBitsJoin(all[..n], all[n..]);
    assert all == all[..n] + all[n..];
    assert DigitBits(all[..n]) == DigitBits(all)[..5 * n];
  }

  lemma {:induction false} GroupJoins(group: seq<digit>, rest: seq<digit>, a: Bytes, b: Bytes)
    requires |group| == 8 && |a| == 5 && DigitBits(group) == ByteBits(a) && BitsOf(rest, b)
    ensures BitsOf(group + rest, a + b)
  {
    DigitBitsJoin(group, rest);
    ByteBitsJoin(a, b);
  }

  lemma {:induction false} TailSpells(b: Bytes) returns (ds: seq<digit>)
    requires |b| < 5
    ensures Spells(Encode(b), ds) && BitsOf(ds, b)
  {
    var padded := b + Zeros(5 - |b|, 0 as byte);
    ds := Digits(padded)[..TailLetters(|b|)];
    LettersSpell(ds);
    GroupBits(padded);
    TailBits(Digits(padded), b, TailLetters(|b|));
  }

  lemma {:induction false} GroupSpells(b: Bytes, rest: seq<digit>) returns (ds: seq<digit>)
    requires |b| >= 5 && Spells(Encode(b[5..]), rest) && BitsOf(rest, b[5..])
    ensures Spells(Encode(b), ds) && BitsOf(ds, b)
  {
    var group := Digits(b[..5]);
    ds := group + rest;
    LettersSpell(group);
    SpellsJoin(Letters(group), group, Encode(b[5..]), rest);
    GroupBits(b[..5]);
    GroupJoins(group, rest, b[..5], b[5..]);
    assert b == b[..5] + b[5..];
  }

  // Five bits to a letter of the standard alphabet, most significant first, the
  // letters spell the bits of the bytes in order; the last letter is filled up
  // with zero bits, and there is no padding.
  lemma {:induction false} LettersSpellBytes(b: Bytes) returns (ds: seq<digit>)
    ensures Spells(Encode(b), ds) && |ds| == (8 * |b| + 4) / 5
    ensures DigitBits(ds) == ByteBits(b) + Zeros(5 * |ds| - 8 * |b|, false)
  {
    if |b| < 5 {
      ds := TailSpells(b);
    } else {
      ds := LettersSpellBytes(b[5..]);
      ds := GroupSpells(b, ds);
    }
  }

  // ------------------------------------------------------------------
  // Plaintexts
  // ------------------------------------------------------------------

  function Plaintext(prefix: string, entropy: Bytes): string {
    prefix + Encode(entropy)
  }

  // The random bytes a generated plaintext was made from.
  function EntropyOf(plaintext: string): Bytes {
    if |plaintext| < ENCODED_LENGTH then [] else Decode(plaintext[|plaintext| - ENCODED_LENGTH..])
  }

  datatype ValidateError = Empty | PrefixMissing

  function Validate(plaintext: string, prefix: string): Option<ValidateError> {
    if plaintext == "" then Some(Empty)
    else if prefix != "" && !(prefix <= plaintext) then Some(PrefixMissing)
    else None
  }

  // A generated plaintext is non-empty, carries its prefix, is 52 letters
  // longer than it, and gives its random bytes back whatever the prefix.
  lemma PlaintextShape(prefix: string, entropy: Bytes)
    requires |entropy| == RANDOM_BYTES
    ensures var p := Plaintext(prefix, entropy);
            && |p| == |prefix| + ENCODED_LENGTH
            && EntropyOf(p) == entropy
            && Validate(p, prefix) == None && Validate(p, "") == None
  {
    var code := Encode(entropy);
    EncodedLength(entropy, 6, 2);
    assert Decode(code) == entropy by { DecodeInvertsEncode(entropy); }
    assert (prefix + code)[|prefix|..] == code;
  }

  // Validation refuses the empty plaintext and one that does not begin with the
  // prefix asked for.
  lemma ValidateMeans(plaintext: string, prefix: string)
    ensures Validate(plaintext, prefix) == Some(Empty) <==> plaintext == ""
    ensures Validate(plaintext, prefix) == None <==> plaintext != "" && prefix <= plaintext
  {
  }

  // A generated plaintext is its prefix and 52 letters of the standard alphabet
  // that spell the 32 random bytes.
  lemma {:induction false} PlaintextSpells(prefix: string, entropy: Bytes) returns (ds: seq<digit>)
    requires |entropy| == 32
    ensures var p := Plaintext(prefix, entropy);
            && |p| == |prefix| + 52 && p[..|prefix|] == prefix && Spells(p[|prefix|..], ds)
            && DigitBits(ds) == ByteBits(entropy) + Zeros(4, false)
  {
    ds := LettersSpellBytes(entropy);
    assert (prefix + Encode(entropy))[|prefix|..] == Encode(entropy);
  }

  // Prefix and entropy are both determined by the plaintext, even between
  // prefixes of different lengths.
  lemma PlaintextInjective(prefix1: string, entropy1: Bytes, prefix2: string, entropy2: Bytes)
    requires |entropy1| == RANDOM_BYTES && |entropy2| == RANDOM_BYTES
    ensures Plaintext(prefix1, entropy1) == Plaintext(prefix2, entropy2)
       <==> prefix1 == prefix2 && entropy1 == entropy2
  {
    PlaintextShape(prefix1, entropy1);
    PlaintextShape(prefix2, entropy2);
    if Plaintext(prefix1, entropy1) == Plaintext(prefix2, entropy2) {
      assert prefix1 == Plaintext(prefix1, entropy1)[..|prefix1|];
      assert prefix2 == Plaintext(prefix2, entropy2)[..|prefix2|];
    }
  }

  // ------------------------------------------------------------------
  // Generation
  // ------------------------------------------------------------------

  // The randomness source: a stream of bytes that may run dry.
  class RandomReader {
    var stream: Bytes

    constructor (stream: Bytes)
      ensures this.stream == stream
    {
      this.stream := stream;
    }

    // Fills the whole buffer or reports failure.
    method ReadFull(buffer: array<byte>) returns (ok: bool)
      modifies this`stream, buffer
      ensures ok == (buffer.Length <= |old(stream)|)
      ensures ok ==> old(stream) == buffer[..] + stream
    {
      ok := buffer.Length <= |stream|;
      if ok {
        forall i | 0 <= i < buffer.Length {
          buffer[i] := stream[i];
        }
        assert buffer[..] == stream[..buffer.Length];
        stream := stream[buffer.Length..];
      }
    }
  }

  // The plaintext is the prefix followed by the encoding of the next 32
  // random bytes, and the hash covers the prefix too. When the source runs
  // dry there is an error and neither plaintext nor hash.
  method New(prefix: string, reader: RandomReader, sha: string -> Bytes)
    returns (plaintext: string, hash: Bytes, ok: bool)
    modifies reader
    ensures ok == (RANDOM_BYTES <= |old(reader.stream)|)
    ensures ok ==> plaintext == Plaintext(prefix, old(reader.stream)[..RANDOM_BYTES]) && hash == sha(plaintext)
    ensures ok ==> reader.stream == old(reader.stream)[RANDOM_BYTES..]
    ensures !ok ==> plaintext == "" && hash == []
  {
    var b := new byte[RANDOM_BYTES](_ => 0);
    ok := reader.ReadFull(b);
    if !ok {
      return "", [], false;
    }
    plaintext := prefix + Encode(b[..]);
    hash := sha(plaintext);
  }
}
