/** UTF-8 as section 4 of RFC 3629 defines it, and the parts of Go's utf8 and strings packages that
    work on bytes which may not be UTF-8. A text is a sequence of characters, each its own bytes. */
module Utf8 {
  type Byte = b: int | 0 <= b < 256

  type Character = seq<Byte>
  type Text = seq<Character>

  const NUL: Character := [0]
  const REPLACEMENT: Character := [0xEF, 0xBF, 0xBD]

  /** How many bytes a character has by its first byte, 0 for a byte that starts none. */
  function Size(first: Byte): nat {
    if first < 0x80 then 1
    else if 0xC2 <= first <= 0xDF then 2
    else if 0xE0 <= first <= 0xEF then 3
    else if 0xF0 <= first <= 0xF4 then 4
    else 0
  }

  predicate IsTail(b: Byte) {
    0x80 <= b <= 0xBF
  }

  /** The second bytes that may follow a first byte. */
  predicate IsSecond(first: Byte, b: Byte) {
    if first == 0xE0 then 0xA0 <= b <= 0xBF
    else if first == 0xED then 0x80 <= b <= 0x9F
    else if first == 0xF0 then 0x90 <= b <= 0xBF
    else if first == 0xF4 then 0x80 <= b <= 0x8F
    else IsTail(b)
  }

  /** The bytes fit the beginning of a character. */
  predicate Fits(bytes: seq<Byte>) {
    && 0 < |bytes| <= Size(bytes[0])
    && (|bytes| > 1 ==> IsSecond(bytes[0], bytes[1]))
    && (|bytes| > 2 ==> IsTail(bytes[2]))
    && (|bytes| > 3 ==> IsTail(bytes[3]))
  }

  predicate IsCharacter(bytes: seq<Byte>) {
    Fits(bytes) && |bytes| == Size(bytes[0])
  }

  /** The beginning of a character, without its end. */
  predicate IsPartial(bytes: seq<Byte>) {
    Fits(bytes) && |bytes| < Size(bytes[0])
  }

  /** The size of the character that some bytes begin with, 0 when they do not begin with one. */
  function HeadSize(bytes: seq<Byte>): (n: nat)
    ensures n <= |bytes|
    ensures n > 0 ==> IsCharacter(bytes[..n])
  {
    if |bytes| > 0 && Size(bytes[0]) <= |bytes| && IsCharacter(bytes[..Size(bytes[0])]) then Size(bytes[0]) else 0
  }

  /** Bytes that are characters one after the other. */
  predicate Valid(bytes: seq<Byte>) {
    bytes == [] || (HeadSize(bytes) > 0 && Valid(bytes[HeadSize(bytes)..]))
  }

  // ---------------------------------------------------------------- Go's view of bytes

  predicate RuneStart(b: Byte) {
    !IsTail(b)
  }

  /** Whether the bytes begin with a whole character or with something that never becomes one. */
  predicate FullRune(bytes: seq<Byte>) {
    if |bytes| == 0 then false
    else if |bytes| >= Size(bytes[0]) then true
    else if |bytes| > 1 && !IsSecond(bytes[0], bytes[1]) then true
    else |bytes| > 2 && !IsTail(bytes[2])
  }

  /** The characters of some bytes, with a replacement character for each run of bytes that are
      none. `broken` when the byte before was such a byte. */
  function Scan(bytes: seq<Byte>, broken: bool): Text
    decreases |bytes|
  {
    if bytes == [] then []
    else
      var n := HeadSize(bytes);
      if n > 0 then [bytes[..n]] + Scan(bytes[n..], false)
      else (if broken then [] else [REPLACEMENT]) + Scan(bytes[1..], true)
  }

  function WithoutNul(text: Text): Text {
    if text == [] then [] else (if text[0] == NUL then [] else [text[0]]) + WithoutNul(text[1..])
  }

  /** What goes into the database for some bytes: valid text without NUL characters. */
  function ToText(bytes: seq<Byte>): Text {
    WithoutNul(Scan(bytes, false))
  }

  function Flatten(text: Text): seq<Byte> {
    if text == [] then [] else text[0] + Flatten(text[1..])
  }

  function WithoutZeros(bytes: seq<Byte>): seq<Byte> {
    if bytes == [] then [] else (if bytes[0] == 0 then [] else [bytes[0]]) + WithoutZeros(bytes[1..])
  }

  // ---------------------------------------------------------------- valid bytes

  /** A character is found by its first byte, whatever follows it. */
  lemma HeadIs(character: seq<Byte>, rest: seq<Byte>)
    requires IsCharacter(character)
    ensures HeadSize(character + rest) == |character|
  {
    assert (character + rest)[..|character|] == character;
  }

  lemma HeadStays(bytes: seq<Byte>, more: seq<Byte>)
    requires HeadSize(bytes) > 0
    ensures HeadSize(bytes + more) == HeadSize(bytes)
  {
    var n := HeadSize(bytes);
    assert bytes + more == bytes[..n] + (bytes[n..] + more);
    HeadIs(bytes[..n], bytes[n..] + more);
  }

  lemma {:induction false} ValidConcat(a: seq<Byte>, b: seq<Byte>)
    requires Valid(a)
    ensures Valid(a + b) <==> Valid(b)
    decreases |a|
  {
    if a == [] {
      assert a + b == b;
    } else {
      var n := HeadSize(a);
      HeadStays(a, b);
      assert (a + b)[n..] == a[n..] + b;
      ValidConcat(a[n..], b);
    }
  }

  lemma ScanHead(character: seq<Byte>, rest: seq<Byte>, broken: bool)
    requires IsCharacter(character)
    ensures Scan(character + rest, broken) == [character] + Scan(rest, false)
  {
    HeadIs(character, rest);
    assert (character + rest)[..|character|] == character && (character + rest)[|character|..] == rest;
  }

  lemma {:induction false} ScanConcat(a: seq<Byte>, b: seq<Byte>)
    requires Valid(a)
    ensures Scan(a + b, false) == Scan(a, false) + Scan(b, false)
    decreases |a|
  {
    if a == [] {
      assert a + b == b;
    } else {
      var n := HeadSize(a);
      var head, rest := a[..n], a[n..];
      calc {
        Scan(a + b, false);
      == { assert a + b == head + (rest + b); }
        Scan(head + (rest + b), false);
      == { ScanHead(head, rest + b, false); }
        [head] + Scan(rest + b, false);
      == { ScanConcat(rest, b); }
        [head] + (Scan(rest, false) + Scan(b, false));
      ==
        [head] + Scan(rest, false) + Scan(b, false);
      == { ScanHead(head, rest, false); assert a == head + rest; }
        Scan(a, false) + Scan(b, false);
      }
    }
  }

  lemma {:induction false} WithoutNulConcat(a: Text, b: Text)
    ensures WithoutNul(a + b) == WithoutNul(a) + WithoutNul(b)
  {
    if a == [] {
      assert a + b == b;
    } else {
      assert (a + b)[1..] == a[1..] + b;
      WithoutNulConcat(a[1..], b);
    }
  }

  /** Valid bytes can be cut at a character and turned into text piece by piece. */
  lemma ToTextConcat(a: seq<Byte>, b: seq<Byte>)
    requires Valid(a)
    ensures ToText(a + b) == ToText(a) + ToText(b)
  {
    if a == [] {
      assert a + b == b;
    } else {
      ScanConcat(a, b);
      WithoutNulConcat(Scan(a, false), Scan(b, false));
    }
  }

  lemma {:induction false} WithoutZerosConcat(a: seq<Byte>, b: seq<Byte>)
    ensures WithoutZeros(a + b) == WithoutZeros(a) + WithoutZeros(b)
  {
    if a == [] {
      assert a + b == b;
    } else {
      assert (a + b)[1..] == a[1..] + b;
      WithoutZerosConcat(a[1..], b);
    }
  }

  lemma {:induction false} NoZerosToDrop(bytes: seq<Byte>)
    requires forall i :: 0 <= i < |bytes| ==> bytes[i] != 0
    ensures WithoutZeros(bytes) == bytes
  {
    if bytes != [] {
      NoZerosToDrop(bytes[1..]);
    }
  }

  lemma CharacterWithoutZeros(c: seq<Byte>)
    requires IsCharacter(c)
    ensures WithoutZeros(c) == if c == NUL then [] else c
  {
    if c == NUL {
      assert c[1..] == [];
    } else {
      NoZerosToDrop(c);
    }
  }

  /** The text of valid bytes is those bytes, without the zeros: no replacement character appears
      that was not there. */
  lemma {:induction false} ValidTextIsTheBytes(bytes: seq<Byte>)
    requires Valid(bytes)
    ensures Flatten(ToText(bytes)) == WithoutZeros(bytes)
    decreases |bytes|
  {
    if bytes != [] {
      var n := HeadSize(bytes);
      var head, rest := bytes[..n], bytes[n..];
      ValidTextIsTheBytes(rest);
      CharacterWithoutZeros(head);
      WithoutZerosConcat(head, rest);
      ScanHead(head, rest, false);
      assert bytes == head + rest;
      assert Scan(bytes, false)[1..] == Scan(rest, false);
      if head != NUL {
        assert ToText(bytes) == [head] + ToText(rest) && ToText(bytes)[1..] == ToText(rest);
      } else {
        assert ToText(bytes) == ToText(rest);
      }
    }
  }

  lemma {:induction false} WithoutNulShrinks(text: Text)
    ensures |WithoutNul(text)| <= |text|
    ensures NUL !in WithoutNul(text)
  {
    if text != [] {
      WithoutNulShrinks(text[1..]);
    }
  }

  lemma {:induction false} ScanShrinks(bytes: seq<Byte>, broken: bool)
    ensures |Scan(bytes, broken)| <= |bytes|
    decreases |bytes|
  {
    if bytes != [] {
      var n := HeadSize(bytes);
      if n > 0 {
        ScanShrinks(bytes[n..], false);
      } else {
        ScanShrinks(bytes[1..], true);
      }
    }
  }

  lemma {:induction false} NothingToClean(text: Text)
    requires NUL !in text
    ensures WithoutNul(text) == text
  {
    if text != [] {
      NothingToClean(text[1..]);
    }
  }

  /** Bytes that could only continue a character, without one to continue. */
  ghost predicate IsStray(bytes: seq<Byte>) {
    bytes != [] && forall i :: 0 <= i < |bytes| ==> IsTail(bytes[i])
  }

  // ---------------------------------------------------------------- where whole characters end

  /** Bytes that arrived so far: whole characters, then perhaps the beginning of one more. */
  ghost predicate Splits(bytes: seq<Byte>, whole: nat) {
    && whole <= |bytes| && Valid(bytes[..whole])
    && (whole == |bytes| || IsPartial(bytes[whole..]))
  }

  lemma CharacterIsValid(character: seq<Byte>)
    requires IsCharacter(character)
    ensures Valid(character)
  {
    assert character + [] == character;
    HeadIs(character, []);
  }

  /** Every prefix of valid bytes is whole characters and perhaps a part of one. */
  lemma {:induction false} PrefixSplits(bytes: seq<Byte>, count: nat) returns (whole: nat)
    requires Valid(bytes) && count <= |bytes|
    ensures Splits(bytes[..count], whole)
    decreases |bytes|
  {
    if bytes == [] {
      whole := 0;
    } else {
      var n := HeadSize(bytes);
      if count < n {
        whole := 0;
        assert count > 0 ==> bytes[..count][0..] == bytes[..count];
      } else {
        var rest := PrefixSplits(bytes[n..], count - n);
        whole := n + rest;
        SplitsAfter(bytes[..n], bytes[n..][..count - n], rest);
        assert bytes[..n] + bytes[n..][..count - n] == bytes[..count];
      }
    }
  }

  lemma SplitsAfter(character: seq<Byte>, rest: seq<Byte>, whole: nat)
    requires IsCharacter(character) && Splits(rest, whole)
    ensures Splits(character + rest, |character| + whole)
  {
    var all, n := character + rest, |character|;
    assert all[..n + whole] == character + rest[..whole] && all[n + whole..] == rest[whole..];
    CharacterIsValid(character);
    ValidConcat(character, rest[..whole]);
  }

  /** Nothing longer is whole characters. */
  lemma {:induction false} SplitIsLongest(bytes: seq<Byte>, whole: nat, longer: nat)
    requires Splits(bytes, whole) && longer <= |bytes| && Valid(bytes[..longer])
    ensures longer <= whole
  {
    if whole < longer {
      assert bytes[..longer] == bytes[..whole] + bytes[whole..longer];
      ValidConcat(bytes[..whole], bytes[whole..longer]);
    }
  }

  /** The last character of valid bytes. */
  lemma {:induction false} LastCharacter(bytes: seq<Byte>) returns (start: nat)
    requires Valid(bytes) && bytes != []
    ensures start < |bytes| && IsCharacter(bytes[start..])
    decreases |bytes|
  {
    var n := HeadSize(bytes);
    if n == |bytes| {
      start := 0;
      assert bytes[0..] == bytes == bytes[..n];
    } else {
      var rest := LastCharacter(bytes[n..]);
      start := n + rest;
      assert bytes[n..][rest..] == bytes[start..];
    }
  }
}
