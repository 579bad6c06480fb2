/** Exactly when it does not matter how a task's output is cut into writes and takes, for any bytes.
    Takes never cut a character, so all that can go wrong is a cut inside a run of bytes that are no
    character: the run is one replacement character, and two when it is taken in two pieces. */
module TaskChunks {
  import opened Basics
  import opened Utf8
  import opened TaskOutput

  /** How many bytes at the beginning are no character. */
  function BrokenSize(bytes: seq<Byte>): (k: nat)
    ensures k <= |bytes|
    ensures bytes != [] && HeadSize(bytes) == 0 ==> k > 0
  {
    if bytes == [] || HeadSize(bytes) > 0 then 0 else 1 + BrokenSize(bytes[1..])
  }

  /** How the bytes begin: with a whole character, or with a whole run of bytes that are none. */
  function PieceSize(bytes: seq<Byte>): (n: nat)
    requires bytes != []
    ensures 0 < n <= |bytes|
  {
    if HeadSize(bytes) > 0 then HeadSize(bytes) else BrokenSize(bytes)
  }

  /** A run is never cut while it arrives: a take leaves all of it for later, or has all of it. */
  ghost predicate SteadyRun(run: seq<Byte>) {
    forall p :: 0 < p <= |run| ==> WholeFrom(run[..p], 1) == 0 || WholeFrom(run[..p], 1) == |run|
  }

  /** So it is with every run of bytes that are no character. */
  ghost predicate Steady(bytes: seq<Byte>)
    decreases |bytes|
  {
    bytes == []
    || (Steady(bytes[PieceSize(bytes)..]) && (HeadSize(bytes) == 0 ==> SteadyRun(bytes[..PieceSize(bytes)])))
  }

  /** A place between two characters or runs. */
  ghost predicate Between(bytes: seq<Byte>, x: nat)
    decreases |bytes|
  {
    x == 0 || (bytes != [] && x >= PieceSize(bytes) && Between(bytes[PieceSize(bytes)..], x - PieceSize(bytes)))
  }

  // ---------------------------------------------------------------- runs of bytes that are no character

  /** No character begins in the first k bytes. */
  ghost predicate BrokenTo(bytes: seq<Byte>, k: nat) {
    k <= |bytes| && forall i :: 0 <= i < k ==> HeadSize(bytes[i..]) == 0
  }

  lemma {:induction false} BrokenSizeIs(bytes: seq<Byte>)
    ensures BrokenTo(bytes, BrokenSize(bytes))
    ensures var rest := bytes[BrokenSize(bytes)..]; rest == [] || HeadSize(rest) > 0
  {
    if bytes != [] && HeadSize(bytes) == 0 {
      BrokenSizeIs(bytes[1..]);
      var k := BrokenSize(bytes);
      forall i | 0 <= i < k ensures HeadSize(bytes[i..]) == 0 {
        if i > 0 {
          assert bytes[i..] == bytes[1..][i - 1..];
        } else {
          assert bytes[0..] == bytes;
        }
      }
      assert bytes[k..] == bytes[1..][k - 1..];
    } else {
      assert bytes[0..] == bytes;
    }
  }

  /** Bytes that begin no character begin none in a shorter text either. */
  lemma BrokenInPrefix(bytes: seq<Byte>, k: nat, x: nat)
    requires BrokenTo(bytes, k) && x <= |bytes|
    ensures BrokenTo(bytes[..x], if x <= k then x else k)
  {
    var prefix := bytes[..x];
    forall i | 0 <= i < (if x <= k then x else k) ensures HeadSize(prefix[i..]) == 0 {
      assert prefix[i..] + bytes[x..] == bytes[i..];
      if HeadSize(prefix[i..]) > 0 {
        HeadStays(prefix[i..], bytes[x..]);
      }
    }
  }

  lemma BrokenFrom(bytes: seq<Byte>, k: nat, x: nat)
    requires BrokenTo(bytes, k) && x <= k
    ensures BrokenTo(bytes[x..], k - x)
  {
    forall i | 0 <= i < k - x ensures HeadSize(bytes[x..][i..]) == 0 {
      assert bytes[x..][i..] == bytes[x + i..];
    }
  }

  lemma ScanBroken(bytes: seq<Byte>, broken: bool)
    requires bytes != [] && HeadSize(bytes) == 0
    ensures Scan(bytes, broken) == (if broken then [] else [REPLACEMENT]) + Scan(bytes[1..], true)
  {
  }

  /** Nothing is left of a run that has begun already, and what follows it is read as if it stood
      alone. */
  lemma {:induction false} ScanRest(bytes: seq<Byte>, k: nat)
    requires BrokenTo(bytes, k) && (bytes[k..] == [] || HeadSize(bytes[k..]) > 0)
    ensures Scan(bytes, true) == Scan(bytes[k..], false)
    decreases k
  {
    assert bytes[0..] == bytes;
    if k > 0 {
      BrokenFrom(bytes, k, 1);
      assert bytes[1..][k - 1..] == bytes[k..];
      ScanRest(bytes[1..], k - 1);
      ScanBroken(bytes, true);
    }
  }

  lemma ScanRun(bytes: seq<Byte>, k: nat)
    requires 0 < k && BrokenTo(bytes, k) && (bytes[k..] == [] || HeadSize(bytes[k..]) > 0)
    ensures Scan(bytes, false) == [REPLACEMENT] + Scan(bytes[k..], false)
  {
    assert bytes[0..] == bytes;
    BrokenFrom(bytes, k, 1);
    assert bytes[1..][k - 1..] == bytes[k..];
    ScanRest(bytes[1..], k - 1);
    ScanBroken(bytes, false);
  }

  lemma TextOfRun(bytes: seq<Byte>, k: nat)
    requires 0 < k && BrokenTo(bytes, k) && (bytes[k..] == [] || HeadSize(bytes[k..]) > 0)
    ensures ToText(bytes) == [REPLACEMENT] + ToText(bytes[k..])
  {
    ScanRun(bytes, k);
    WithoutNulConcat([REPLACEMENT], Scan(bytes[k..], false));
    NothingToClean([REPLACEMENT]);
  }

  /** The text of bytes is that of their first piece and that of the rest. */
  lemma TextOfPiece(bytes: seq<Byte>)
    requires bytes != []
    ensures var n := PieceSize(bytes);
            ToText(bytes) == ToText(bytes[..n]) + ToText(bytes[n..])
  {
    var n := PieceSize(bytes);
    if HeadSize(bytes) > 0 {
      CharacterIsValid(bytes[..n]);
      ToTextConcat(bytes[..n], bytes[n..]);
      assert bytes == bytes[..n] + bytes[n..];
    } else {
      BrokenSizeIs(bytes);
      TextOfRun(bytes, n);
      BrokenInPrefix(bytes, n, n);
      assert bytes[..n][n..] == [];
      TextOfRun(bytes[..n], n);
    }
  }

  /** A shorter text that ends past the first piece begins with the same piece. */
  lemma PieceOfPrefix(bytes: seq<Byte>, x: nat)
    requires bytes != [] && PieceSize(bytes) <= x <= |bytes|
    requires HeadSize(bytes) > 0 || x == PieceSize(bytes) || HeadSize(bytes[PieceSize(bytes)..x]) > 0
    ensures PieceSize(bytes[..x]) == PieceSize(bytes)
  {
    var n, prefix := PieceSize(bytes), bytes[..x];
    if HeadSize(bytes) > 0 {
      assert prefix == bytes[..n] + bytes[n..x];
      HeadIs(bytes[..n], bytes[n..x]);
    } else {
      BrokenSizeIs(bytes);
      BrokenInPrefix(bytes, n, x);
      assert prefix[0..] == prefix && prefix[n..] == bytes[n..x];
      BrokenSizeUnique(prefix, n);
    }
  }

  lemma {:induction false} BrokenSizeUnique(bytes: seq<Byte>, k: nat)
    requires BrokenTo(bytes, k) && (bytes[k..] == [] || HeadSize(bytes[k..]) > 0)
    ensures BrokenSize(bytes) == k
    decreases k
  {
    assert bytes[0..] == bytes;
    if k > 0 {
      BrokenFrom(bytes, k, 1);
      assert bytes[1..][k - 1..] == bytes[k..];
      BrokenSizeUnique(bytes[1..], k - 1);
    }
  }

  // ---------------------------------------------------------------- cutting between pieces

  lemma HeadOfPrefix(bytes: seq<Byte>, x: nat)
    requires 0 < HeadSize(bytes) <= x <= |bytes|
    ensures HeadSize(bytes[..x]) == HeadSize(bytes)
  {
    var n := HeadSize(bytes);
    assert bytes[..x] == bytes[..n] + bytes[n..x];
    HeadIs(bytes[..n], bytes[n..x]);
  }

  /** After a run comes a character or the end. */
  lemma PieceAfterRun(bytes: seq<Byte>)
    requires bytes != [] && HeadSize(bytes) == 0
    ensures var rest := bytes[PieceSize(bytes)..]; rest == [] || HeadSize(rest) > 0
  {
    BrokenSizeIs(bytes);
  }

  /** Text that ends between pieces begins with the same piece as the longer one. */
  lemma PrefixText(bytes: seq<Byte>, x: nat)
    requires bytes != [] && 0 < x <= |bytes| && Between(bytes, x)
    ensures var n := PieceSize(bytes);
            ToText(bytes[..x]) == ToText(bytes[..n]) + ToText(bytes[n..x])
  {
    var n := PieceSize(bytes);
    var rest := bytes[n..];
    if HeadSize(bytes) == 0 && x > n {
      PieceAfterRun(bytes);
      assert rest[..x - n] == bytes[n..x];
      HeadOfPrefix(rest, x - n);
    }
    PieceOfPrefix(bytes, x);
    TextOfPiece(bytes[..x]);
    assert bytes[..x][..n] == bytes[..n] && bytes[..x][n..] == bytes[n..x];
  }

  /** A cut between pieces changes no text. */
  lemma {:induction false} TextSplits(bytes: seq<Byte>, x: nat)
    requires x <= |bytes| && Between(bytes, x)
    ensures ToText(bytes) == ToText(bytes[..x]) + ToText(bytes[x..])
    decreases |bytes|
  {
    if x == 0 {
      SplitAtStart(bytes);
    } else {
      TextSplits(bytes[PieceSize(bytes)..], x - PieceSize(bytes));
      SplitAfterPiece(bytes, x);
    }
  }

  lemma SplitAtStart(bytes: seq<Byte>)
    ensures ToText(bytes) == ToText(bytes[..0]) + ToText(bytes[0..])
  {
    assert bytes[0..] == bytes && bytes[..0] == [] && ToText([]) == [];
  }

  lemma SplitAfterPiece(bytes: seq<Byte>, x: nat)
    requires bytes != [] && 0 < x <= |bytes| && Between(bytes, x)
    requires var rest, y := bytes[PieceSize(bytes)..], x - PieceSize(bytes);
             ToText(rest) == ToText(rest[..y]) + ToText(rest[y..])
    ensures ToText(bytes) == ToText(bytes[..x]) + ToText(bytes[x..])
  {
    var n := PieceSize(bytes);
    assert bytes[n..][..x - n] == bytes[n..x] && bytes[n..][x - n..] == bytes[x..];
    TextOfPiece(bytes);
    PrefixText(bytes, x);
    Regroup(ToText(bytes[..n]), ToText(bytes[n..x]), ToText(bytes[x..]));
  }

  lemma Regroup(a: Text, b: Text, c: Text)
    ensures (a + b) + c == a + (b + c)
  {
  }

  lemma DropTwice(bytes: seq<Byte>, n: nat, m: nat)
    requires n + m <= |bytes|
    ensures bytes[n..][m..] == bytes[n + m..]
  {
  }

  lemma {:induction false} SteadyAfter(bytes: seq<Byte>, x: nat, after: seq<Byte>)
    requires x <= |bytes| && Between(bytes, x) && Steady(bytes) && after == bytes[x..]
    ensures Steady(after)
    decreases |bytes|
  {
    if x == 0 {
      assert after == bytes;
    } else {
      var n := PieceSize(bytes);
      DropTwice(bytes, n, x - n);
      SteadyAfter(bytes[n..], x - n, after);
    }
  }

  // ---------------------------------------------------------------- where takes cut

  /** The scan goes no further back than the last whole character. */
  lemma {:induction false} ScanInCharacter(before: seq<Byte>, character: seq<Byte>, after: seq<Byte>, back: nat)
    requires IsCharacter(character) && |after| < back <= |after| + |character|
    ensures WholeFrom(before + character + after, back) == |before| + |character| + |after|
    decreases 5 - back
  {
    var data := before + character + after;
    assert |data| == |before| + |character| + |after|;
    if back <= 4 {
      var at := |character| + |after| - back;
      assert data[|data| - back] == character[at];
      if at == 0 {
        assert data[|data| - back..] == character + after;
        assert FullRune(character + after);
      } else {
        ScanInCharacter(before, character, after, back + 1);
      }
    }
  }

  lemma {:induction false} ScanAfterCharacter(before: seq<Byte>, character: seq<Byte>, after: seq<Byte>, back: nat)
    requires IsCharacter(character) && 1 <= back <= |after| + 1
    ensures WholeFrom(before + character + after, back) == |before| + |character| + WholeFrom(after, back)
    decreases 5 - back
  {
    var data := before + character + after;
    assert |data| == |before| + |character| + |after|;
    if back > |after| {
      ScanInCharacter(before, character, after, back);
    } else if back <= 4 {
      assert data[|data| - back] == after[|after| - back];
      if RuneStart(after[|after| - back]) {
        assert data[|data| - back..] == after[|after| - back..];
      } else {
        ScanAfterCharacter(before, character, after, back + 1);
      }
    }
  }

  /** Bytes that begin with a character, or with the part of one that has arrived. */
  ghost predicate StartsWell(data: seq<Byte>) {
    HeadSize(data) > 0 || IsPartial(data)
  }

  lemma PrefixStartsWell(stream: seq<Byte>, a: nat)
    requires HeadSize(stream) > 0 && 0 < a <= |stream|
    ensures StartsWell(stream[..a]) && (HeadSize(stream) <= a ==> HeadSize(stream[..a]) == HeadSize(stream))
  {
    if a < HeadSize(stream) {
      assert Utf8.Fits(stream[..HeadSize(stream)]);
    } else {
      HeadOfPrefix(stream, a);
    }
  }

  /** A character that has arrived in part is left for later. */
  lemma WholeBeforePart(before: seq<Byte>, part: seq<Byte>)
    requires IsPartial(part)
    ensures WholeFrom(before + part, 1) == |before|
  {
    assert (before + part)[|before|..] == part;
    ScanReaches(before + part, |part|, 1);
  }

  lemma CutInTwo(before: seq<Byte>, data: seq<Byte>, n: nat)
    requires n <= |data|
    ensures before + data == before + data[..n] + data[n..]
  {
  }

  lemma WholeAfterHead(before: seq<Byte>, data: seq<Byte>)
    requires HeadSize(data) > 0
    ensures WholeFrom(before + data, 1) == |before| + HeadSize(data) + WholeFrom(data[HeadSize(data)..], 1)
  {
    var n := HeadSize(data);
    CutInTwo(before, data, n);
    ScanAfterCharacter(before, data[..n], data[n..], 1);
  }

  /** What comes before bytes that begin with a character does not matter to a take. */
  lemma WholeAfter(before: seq<Byte>, data: seq<Byte>)
    requires StartsWell(data)
    ensures WholeFrom(before + data, 1) == |before| + WholeFrom(data, 1)
    ensures WholeFrom(data, 1) == if HeadSize(data) > 0 then HeadSize(data) + WholeFrom(data[HeadSize(data)..], 1) else 0
  {
    assert [] + data == data;
    if HeadSize(data) > 0 {
      WholeAfterHead(before, data);
      WholeAfterHead([], data);
    } else {
      WholeBeforePart(before, data);
      WholeBeforePart([], data);
    }
  }

  lemma BetweenAfterPiece(stream: seq<Byte>, x: nat)
    requires stream != [] && Between(stream[PieceSize(stream)..], x)
    ensures Between(stream, PieceSize(stream) + x)
  {
  }

  /** On a steady stream a take cuts between pieces, however much has arrived. */
  lemma {:induction false} TakeIsBetween(stream: seq<Byte>, a: nat)
    requires Steady(stream) && a <= |stream|
    ensures Between(stream, WholeFrom(stream[..a], 1))
    decreases |stream|
  {
    if stream != [] && a > 0 {
      var n := PieceSize(stream);
      if a < n || (a == n && HeadSize(stream) == 0) {
        TakeInPiece(stream, a);
      } else {
        TakeIsBetween(stream[n..], a - n);
        TakeAfterPiece(stream, a);
      }
    }
  }

  lemma TakeAfterPiece(stream: seq<Byte>, a: nat)
    requires stream != [] && PieceSize(stream) <= a <= |stream| && (HeadSize(stream) == 0 ==> PieceSize(stream) < a)
    requires Between(stream[PieceSize(stream)..], WholeFrom(stream[PieceSize(stream)..][..a - PieceSize(stream)], 1))
    ensures Between(stream, WholeFrom(stream[..a], 1))
  {
    var n := PieceSize(stream);
    WholeAfterPiece(stream, a);
    BetweenAfterPiece(stream, WholeFrom(stream[n..][..a - n], 1));
  }

  lemma TakeInPiece(stream: seq<Byte>, a: nat)
    requires Steady(stream) && stream != [] && 0 < a <= PieceSize(stream) && (HeadSize(stream) > 0 ==> a < PieceSize(stream))
    ensures Between(stream, WholeFrom(stream[..a], 1))
  {
    var n := PieceSize(stream);
    if HeadSize(stream) > 0 {
      PrefixStartsWell(stream, a);
      PartHasNoHead(stream, a);
      WholeAfter([], stream[..a]);
    } else {
      assert stream[..n][..a] == stream[..a];
      BetweenAfterPiece(stream, 0);
    }
  }

  lemma PartHasNoHead(stream: seq<Byte>, a: nat)
    requires 0 < a < HeadSize(stream)
    ensures HeadSize(stream[..a]) == 0
  {
  }

  /** A take past the first piece cuts where it would cut in the rest. */
  lemma WholeAfterPiece(stream: seq<Byte>, a: nat)
    requires stream != [] && PieceSize(stream) <= a <= |stream| && (HeadSize(stream) == 0 ==> PieceSize(stream) < a)
    ensures var n := PieceSize(stream);
            WholeFrom(stream[..a], 1) == n + WholeFrom(stream[n..][..a - n], 1)
  {
    var n := PieceSize(stream);
    var rest := stream[n..][..a - n];
    if HeadSize(stream) > 0 {
      PrefixStartsWell(stream, a);
      assert stream[..a][n..] == rest;
      WholeAfter([], stream[..a]);
    } else {
      PieceAfterRun(stream);
      PrefixStartsWell(stream[n..], a - n);
      assert stream[..a] == stream[..n] + rest;
      WholeAfter(stream[..n], rest);
    }
  }

  // ---------------------------------------------------------------- steady streams

  /** Everything taken, with the final take. */
  function Collected(ops: seq<Op>): Text {
    TakenIn(ops) + Taken(After(ops), true)
  }

  /** What is kept of everything printed. */
  function Kept(printed: seq<Byte>): seq<Byte> {
    if |printed| <= 262144 then printed else printed[..262144]
  }

  /** The rest of a stream from a place on is steady, and what was taken is the text before it. */
  ghost predicate GoesWell(stream: seq<Byte>, c: nat, taken: Text) {
    c <= |stream| && Steady(stream[c..]) && taken + ToText(stream[c..]) == ToText(stream)
  }

  /** A take leaves a steady rest, and splits the text. */
  lemma TakeOfRest(rest: seq<Byte>, pending: seq<Byte>)
    requires Steady(rest) && pending <= rest
    ensures var x := WholeFrom(pending, 1);
            Steady(rest[x..]) && ToText(rest) == ToText(pending[..x]) + ToText(rest[x..])
  {
    assert rest[..|pending|] == pending;
    var x := WholeFrom(pending, 1);
    TakeIsBetween(rest, |pending|);
    TextSplits(rest, x);
    SteadyAfter(rest, x, rest[x..]);
    assert rest[..x] == pending[..x];
  }

  lemma TakeGoesWell(stream: seq<Byte>, consumed: seq<Byte>, taken: Text, pending: seq<Byte>, more: seq<Byte>, text: Text)
    requires consumed + pending <= stream && GoesWell(stream, |consumed|, taken)
    requires more == consumed + pending[..WholeFrom(pending, 1)] && text == taken + ToText(pending[..WholeFrom(pending, 1)])
    ensures GoesWell(stream, |more|, text)
  {
    var c, x := |consumed|, WholeFrom(pending, 1);
    PrefixOfRest(stream, consumed, pending);
    TakeOfRest(stream[c..], pending);
    DropTwice(stream, c, x);
    Regroup(taken, ToText(pending[..x]), ToText(stream[c + x..]));
  }

  lemma PrefixOfRest(stream: seq<Byte>, consumed: seq<Byte>, pending: seq<Byte>)
    requires consumed + pending <= stream
    ensures pending <= stream[|consumed|..]
  {
    assert stream[|consumed|..][..|pending|] == pending;
  }

  lemma {:induction false} SteadyTakes(ops: seq<Op>, stream: seq<Byte>)
    requires Steady(stream) && Kept(Printed(ops)) <= stream
    ensures GoesWell(stream, |Consumed(ops)|, TakenIn(ops))
  {
    if ops == [] {
      NothingTaken(stream);
    } else {
      assert ops == Front(ops) + [Last(ops)];
      KeptGrows(Front(ops), Last(ops));
      SteadyTakes(Front(ops), stream);
      OneMoreGoesWell(ops, Front(ops), Last(ops), stream);
    }
  }

  lemma NothingTaken(stream: seq<Byte>)
    requires Steady(stream)
    ensures GoesWell(stream, 0, [])
  {
    assert stream[0..] == stream && [] + ToText(stream) == ToText(stream);
  }

  lemma OneMoreGoesWell(ops: seq<Op>, before: seq<Op>, op: Op, stream: seq<Byte>)
    requires ops == before + [op] && Kept(Printed(before)) <= stream && GoesWell(stream, |Consumed(before)|, TakenIn(before))
    ensures GoesWell(stream, |Consumed(ops)|, TakenIn(ops))
  {
    if op.Take? {
      ArrivedOf(before, stream);
      OneMoreTake(before);
      TakeGoesWell(stream, Consumed(before), TakenIn(before), After(before).pending, Consumed(ops), TakenIn(ops));
    } else {
      OneMoreWrite(before, op.data);
    }
  }

  /** What was taken and what waits are the beginning of the stream. */
  lemma ArrivedOf(ops: seq<Op>, stream: seq<Byte>)
    requires Kept(Printed(ops)) <= stream
    ensures Consumed(ops) + After(ops).pending <= stream
  {
    KeepsTheFirstBytes(ops);
    assert Printed(ops)[..After(ops).kept] == Kept(Printed(ops));
  }

  lemma OneMoreWrite(before: seq<Op>, data: seq<Byte>)
    ensures Printed(before + [Write(data)]) == Printed(before) + data
    ensures TakenIn(before + [Write(data)]) == TakenIn(before) && Consumed(before + [Write(data)]) == Consumed(before)
    ensures After(before + [Write(data)]) == Written(After(before), data)
  {
    var ops := before + [Write(data)];
    assert Front(ops) == before && Last(ops) == Write(data);
    assert TakenIn(before) + [] == TakenIn(before) && Consumed(before) + [] == Consumed(before);
  }

  lemma OneMoreTake(before: seq<Op>)
    ensures var pending := After(before).pending;
            var x := WholeFrom(pending, 1);
            && Printed(before + [Take]) == Printed(before)
            && TakenIn(before + [Take]) == TakenIn(before) + ToText(pending[..x])
            && Consumed(before + [Take]) == Consumed(before) + pending[..x]
  {
    var ops := before + [Take];
    assert Front(ops) == before && Last(ops) == Take;
    assert Printed(before) + [] == Printed(before);
  }

  lemma KeptGrows(before: seq<Op>, op: Op)
    ensures Kept(Printed(before)) <= Kept(Printed(before + [op]))
  {
    if op.Take? {
      OneMoreTake(before);
    } else {
      OneMoreWrite(before, op.data);
    }
  }

  /** On a steady stream every way to write and take it gives its text. */
  lemma SteadyStreams(ops: seq<Op>)
    requires Steady(Kept(Printed(ops)))
    ensures Collected(ops) == ToText(Kept(Printed(ops)))
  {
    var stream, buffer := Kept(Printed(ops)), After(ops);
    SteadyTakes(ops, stream);
    KeepsTheFirstBytes(ops);
    assert Printed(ops)[..buffer.kept] == stream;
    assert stream[|Consumed(ops)|..] == buffer.pending && buffer.pending[..|buffer.pending|] == buffer.pending;
  }

  // ---------------------------------------------------------------- streams that are not steady

  /** A cut that makes one character too many. */
  ghost predicate OneTooMany(stream: seq<Byte>, x: nat) {
    x <= |stream| && |ToText(stream[..x])| + |ToText(stream[x..])| == |ToText(stream)| + 1
  }

  /** A cut inside a run makes one replacement character too many. */
  lemma CutInRun(stream: seq<Byte>, x: nat)
    requires stream != [] && HeadSize(stream) == 0 && 0 < x < PieceSize(stream)
    ensures OneTooMany(stream, x)
  {
    var n := PieceSize(stream);
    BrokenSizeIs(stream);
    BrokenInPrefix(stream, n, x);
    assert stream[..x][x..] == [];
    TextOfRun(stream[..x], x);
    BrokenFrom(stream, n, x);
    DropTwice(stream, x, n - x);
    TextOfRun(stream[x..], n - x);
    TextOfRun(stream, n);
    assert ToText([]) == [];
  }

  /** A cut that makes one too many in the rest makes one too many in all. */
  lemma CutAfterPiece(stream: seq<Byte>, rest: seq<Byte>, y: nat)
    requires stream != [] && rest == stream[PieceSize(stream)..] && OneTooMany(rest, y)
    requires HeadSize(stream) > 0 || HeadSize(rest[..y]) > 0
    ensures OneTooMany(stream, PieceSize(stream) + y)
  {
    var n := PieceSize(stream);
    var x := n + y;
    assert stream[..x][..n] == stream[..n] && stream[..x][n..] == stream[n..x] == rest[..y];
    TextOfPiece(stream);
    PieceOfPrefix(stream, x);
    TextOfPiece(stream[..x]);
    DropTwice(stream, n, y);
  }

  lemma NotAtStart(rest: seq<Byte>, x: nat)
    requires OneTooMany(rest, x)
    ensures x > 0
  {
    if x == 0 {
      SplitAtStart(rest);
    }
  }

  lemma UnsteadyAfterPiece(stream: seq<Byte>, rest: seq<Byte>, b: nat, y: nat, x: nat)
    requires stream != [] && x == PieceSize(stream) + y && rest == stream[PieceSize(stream)..]
    requires b <= |rest| && y == WholeFrom(rest[..b], 1) > 0
    requires OneTooMany(rest, y)
    ensures OneTooMany(stream, x)
  {
    if HeadSize(stream) == 0 {
      PieceAfterRun(stream);
      HeadOfTaken(rest, b);
    }
    CutAfterPiece(stream, rest, y);
  }

  /** What is taken of bytes that begin with a character begins with it. */
  lemma HeadOfTaken(rest: seq<Byte>, b: nat)
    requires HeadSize(rest) > 0 && 0 < b <= |rest| && WholeFrom(rest[..b], 1) > 0
    ensures HeadSize(rest[..WholeFrom(rest[..b], 1)]) > 0
  {
    var x := WholeFrom(rest[..b], 1);
    PrefixStartsWell(rest, b);
    WholeAfter([], rest[..b]);
    assert rest[..b][..x] == rest[..x];
    HeadOfPrefix(rest[..b], x);
  }

  /** A take once some bytes have arrived makes one character too many. */
  ghost predicate CutsBadly(stream: seq<Byte>, a: nat, x: nat) {
    a <= |stream| && x == WholeFrom(stream[..a], 1) && OneTooMany(stream, x)
  }

  lemma UnsteadyRun(stream: seq<Byte>) returns (a: nat, x: nat)
    requires stream != [] && HeadSize(stream) == 0 && !SteadyRun(stream[..PieceSize(stream)])
    ensures CutsBadly(stream, a, x)
  {
    var n := PieceSize(stream);
    a :| 0 < a <= n && WholeFrom(stream[..n][..a], 1) != 0 && WholeFrom(stream[..n][..a], 1) != n;
    assert stream[..n][..a] == stream[..a];
    x := WholeFrom(stream[..a], 1);
    CutInRun(stream, x);
  }

  /** Some take cuts a stream that is not steady inside a run. */
  lemma {:induction false} UnsteadyTake(stream: seq<Byte>) returns (a: nat, x: nat)
    requires !Steady(stream)
    ensures CutsBadly(stream, a, x)
    decreases |stream|
  {
    var rest, here := UnsteadyCases(stream);
    if here {
      a, x := UnsteadyRun(stream);
    } else {
      var b, y := UnsteadyTake(rest);
      a, x := UnsteadyFurther(stream, rest, b, y);
    }
  }

  lemma UnsteadyCases(stream: seq<Byte>) returns (rest: seq<Byte>, here: bool)
    requires !Steady(stream)
    ensures stream != [] && rest == stream[PieceSize(stream)..] && |rest| < |stream|
    ensures if here then HeadSize(stream) == 0 && !SteadyRun(stream[..PieceSize(stream)]) else !Steady(rest)
  {
    rest := stream[PieceSize(stream)..];
    here := Steady(rest);
  }

  lemma UnsteadyFurther(stream: seq<Byte>, rest: seq<Byte>, b: nat, y: nat) returns (a: nat, x: nat)
    requires stream != [] && rest == stream[PieceSize(stream)..] && CutsBadly(rest, b, y)
    ensures CutsBadly(stream, a, x)
  {
    NotAtStart(rest, y);
    a, x := WholeFurther(stream, rest, b, y);
    UnsteadyAfterPiece(stream, rest, b, y, x);
  }

  lemma WholeFurther(stream: seq<Byte>, rest: seq<Byte>, b: nat, y: nat) returns (a: nat, x: nat)
    requires stream != [] && rest == stream[PieceSize(stream)..] && 0 < b <= |rest| && y == WholeFrom(rest[..b], 1)
    ensures a <= |stream| && x == WholeFrom(stream[..a], 1) && x == PieceSize(stream) + y
  {
    a, x := PieceSize(stream) + b, PieceSize(stream) + y;
    WholeAfterPiece(stream, a);
  }

  /** Writing up to such a take, taking, and writing the rest. */
  lemma UnsteadyStream(printed: seq<Byte>) returns (ops: seq<Op>)
    requires !Steady(Kept(printed))
    ensures Printed(ops) == printed && |Collected(ops)| == |ToText(Kept(printed))| + 1
  {
    var a, x := UnsteadyTake(Kept(printed));
    ops := [Write(printed[..a])] + [Take] + [Write(printed[a..])];
    BadCutShows(printed, Kept(printed), a, x, ops);
  }

  lemma BadCutShows(printed: seq<Byte>, stream: seq<Byte>, a: nat, x: nat, ops: seq<Op>)
    requires stream == Kept(printed) && CutsBadly(stream, a, x)
    requires ops == [Write(printed[..a])] + [Take] + [Write(printed[a..])]
    ensures Printed(ops) == printed && |Collected(ops)| == |ToText(stream)| + 1
  {
    CutOfKept(printed, a, x);
    WriteTakeWrite(printed[..a], printed[a..]);
    CollectedOf(ops, x, stream);
  }

  lemma CutOfKept(printed: seq<Byte>, a: nat, x: nat)
    requires x <= a <= |Kept(printed)|
    ensures printed[..a] == Kept(printed)[..a] && printed[..a] + printed[a..] == printed && printed[..a][..x] == Kept(printed)[..x]
  {
  }

  /** When what was taken ends at a place, the final take is the rest. */
  lemma CollectedOf(ops: seq<Op>, x: nat, stream: seq<Byte>)
    requires stream == Kept(Printed(ops)) && x <= |stream| && Consumed(ops) == stream[..x]
    ensures Collected(ops) == TakenIn(ops) + ToText(stream[x..])
  {
    KeepsTheFirstBytes(ops);
    assert Printed(ops)[..After(ops).kept] == stream;
    assert After(ops).pending == stream[x..];
    assert After(ops).pending[..|After(ops).pending|] == After(ops).pending;
  }

  lemma WriteTakeWrite(first: seq<Byte>, second: seq<Byte>)
    requires |first| <= OUTPUT_BYTES
    ensures var ops := [Write(first)] + [Take] + [Write(second)];
            var x := WholeFrom(first, 1);
            Printed(ops) == first + second && Consumed(ops) == first[..x] && TakenIn(ops) == ToText(first[..x])
  {
    var x := WholeFrom(first, 1);
    FirstWrite(first);
    OneMoreTake([Write(first)]);
    OneMoreWrite([Write(first)] + [Take], second);
    assert [] + first[..x] == first[..x];
    assert [] + ToText(first[..x]) == ToText(first[..x]);
  }

  lemma FirstWrite(data: seq<Byte>)
    requires |data| <= OUTPUT_BYTES
    ensures After([Write(data)]) == Buffer(data, |data|, false)
    ensures Printed([Write(data)]) == data && Consumed([Write(data)]) == [] && TakenIn([Write(data)]) == []
  {
    assert Front([Write(data)]) == [];
    assert data[..|data|] == data && [] + data == data;
  }

  /** For any output at all, every way to write it and take it gives one and the same text, that of
      the bytes kept, if and only if those bytes are steady. */
  lemma CutsDoNotMatterIff(printed: seq<Byte>)
    ensures (forall ops :: Printed(ops) == printed ==> Collected(ops) == ToText(Kept(printed))) <==> Steady(Kept(printed))
  {
    if Steady(Kept(printed)) {
      forall ops | Printed(ops) == printed ensures Collected(ops) == ToText(Kept(printed)) {
        SteadyStreams(ops);
      }
    } else {
      var ops := UnsteadyStream(printed);
      assert Printed(ops) == printed && Collected(ops) != ToText(Kept(printed));
    }
  }

  // ---------------------------------------------------------------- which streams are steady

  lemma {:induction false} ValidIsSteady(bytes: seq<Byte>)
    requires Valid(bytes)
    ensures Steady(bytes)
    decreases |bytes|
  {
    if bytes != [] {
      ValidIsSteady(bytes[HeadSize(bytes)..]);
    }
  }

  /** Bytes that could only continue a character, without one to continue, are steady exactly when
      there is one of them: the second is taken apart from the first when a take falls between. */
  lemma StrayBytesDependOnTakes(bytes: seq<Byte>)
    requires IsStray(bytes)
    ensures Steady(bytes) <==> |bytes| == 1
  {
    assert BrokenTo(bytes, |bytes|) && bytes[|bytes|..] == [];
    BrokenSizeUnique(bytes, |bytes|);
    assert bytes[..|bytes|] == bytes && bytes[0..] == bytes;
    assert WholeFrom(bytes[..1], 1) == 1 by {
      assert |bytes[..1]| == 1 && !RuneStart(bytes[..1][0]);
    }
    assert |bytes| == 1 ==> bytes[..1] == bytes;
  }
}
