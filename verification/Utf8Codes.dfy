/** The byte patterns that count as characters are the encodings of Unicode's scalar values, as section 3
    of RFC 3629 builds them from code points: none is missing, none is written twice. */
module Utf8Codes {
  import opened Utf8

  /** The code points that have an encoding: all up to 10FFFF but the surrogates. */
  predicate IsScalar(code: int) {
    0 <= code < 0xD800 || 0xE000 <= code < 0x110000
  }

  /** A code point's bits, six to a byte after the first. */
  function Encode(code: int): (bytes: seq<Byte>)
    requires IsScalar(code)
  {
    if code < 0x80 then [code]
    else if code < 0x800 then [0xC0 + code / 64, 0x80 + code % 64]
    else if code < 0x10000 then [0xE0 + code / 4096, 0x80 + code / 64 % 64, 0x80 + code % 64]
    else [0xF0 + code / 262144, 0x80 + code / 4096 % 64, 0x80 + code / 64 % 64, 0x80 + code % 64]
  }

  /** Six more bits, those of a byte that is not a character's first. */
  function Join(high: int, tail: int): int {
    high * 64 + (tail - 0x80)
  }

  function Decode(bytes: seq<Byte>): int
    requires IsCharacter(bytes)
  {
    var first: int := bytes[0];
    match |bytes|
    case 1 => first
    case 2 => Join(first - 0xC0, bytes[1])
    case 3 => Join(Join(first - 0xE0, bytes[1]), bytes[2])
    case _ => Join(Join(Join(first - 0xF0, bytes[1]), bytes[2]), bytes[3])
  }

  lemma JoinSplits(high: int, tail: int)
    requires 0x80 <= tail <= 0xBF
    ensures Join(high, tail) / 64 == high && 0x80 + Join(high, tail) % 64 == tail
  {
  }

  lemma TwelveBits(code: int)
    ensures code / 4096 == code / 64 / 64 && code / 262144 == code / 64 / 64 / 64
  {
  }

  /** Every scalar value's encoding is a character, and is read back. */
  lemma ScalarIsCharacter(code: int)
    requires IsScalar(code)
    ensures IsCharacter(Encode(code)) && Decode(Encode(code)) == code
  {
    TwelveBits(code);
  }

  lemma TwoBytes(bytes: seq<Byte>)
    requires IsCharacter(bytes) && |bytes| == 2
    ensures IsScalar(Decode(bytes)) && Encode(Decode(bytes)) == bytes
  {
    JoinSplits(bytes[0] - 0xC0, bytes[1]);
  }

  lemma ThreeBytes(bytes: seq<Byte>)
    requires IsCharacter(bytes) && |bytes| == 3
    ensures IsScalar(Decode(bytes)) && Encode(Decode(bytes)) == bytes
  {
    var high := Join(bytes[0] - 0xE0, bytes[1]);
    JoinSplits(bytes[0] - 0xE0, bytes[1]);
    JoinSplits(high, bytes[2]);
    TwelveBits(Join(high, bytes[2]));
  }

  lemma FourBytes(bytes: seq<Byte>)
    requires IsCharacter(bytes) && |bytes| == 4
    ensures IsScalar(Decode(bytes)) && Encode(Decode(bytes)) == bytes
  {
    var high := Join(bytes[0] - 0xF0, bytes[1]);
    JoinSplits(bytes[0] - 0xF0, bytes[1]);
    JoinSplits(high, bytes[2]);
    JoinSplits(Join(high, bytes[2]), bytes[3]);
    TwelveBits(Join(Join(high, bytes[2]), bytes[3]));
  }

  /** Every character is the encoding of a scalar value. */
  lemma CharacterIsScalar(bytes: seq<Byte>)
    requires IsCharacter(bytes)
    ensures IsScalar(Decode(bytes)) && Encode(Decode(bytes)) == bytes
  {
    match |bytes|
    case 1 =>
    case 2 => TwoBytes(bytes);
    case 3 => ThreeBytes(bytes);
    case _ => FourBytes(bytes);
  }

  /** The characters of up to four bytes are exactly the encodings. */
  lemma CharacterIff(bytes: seq<Byte>)
    ensures IsCharacter(bytes) <==> exists code :: IsScalar(code) && Encode(code) == bytes
  {
    if IsCharacter(bytes) {
      CharacterIsScalar(bytes);
    }
    if code :| IsScalar(code) && Encode(code) == bytes {
      ScalarIsCharacter(code);
    }
  }

  /** Bytes that are not a character are replaced by U+FFFD, and the character dropped is U+0000. */
  lemma SpecialCharacters()
    ensures REPLACEMENT == Encode(0xFFFD) && NUL == Encode(0)
  {
  }

  /** Go waits for more bytes exactly where a character has begun and is not complete. */
  lemma FullRuneIff(bytes: seq<Byte>)
    requires bytes != []
    ensures !FullRune(bytes) <==>
              exists more :: more != [] && IsCharacter(bytes + more)
  {
    if !FullRune(bytes) {
      var more := Completion(bytes);
      assert IsCharacter(bytes + more);
    }
    if more :| more != [] && IsCharacter(bytes + more) {
      var all := bytes + more;
      assert forall k :: 0 <= k < |bytes| ==> all[k] == bytes[k];
    }
  }

  /** Bytes that complete the beginning of a character. */
  function Completion(bytes: seq<Byte>): (more: seq<Byte>)
    requires bytes != [] && !FullRune(bytes)
    ensures more != [] && IsCharacter(bytes + more)
  {
    var second := if bytes[0] == 0xE0 then 0xA0 else if bytes[0] == 0xF0 then 0x90 else 0x80;
    var all := if |bytes| == 1 then [second, 0x80, 0x80] else [0x80, 0x80];
    all[..Size(bytes[0]) - |bytes|]
  }
}
