/** What a task prints, collected on the agent and taken in pieces. The pieces never cut a character
    in half, so for valid text it does not matter when they are taken. */
module TaskOutput {
  import opened Basics
  import opened Utf8

  /** Bytes past this many are dropped. */
  const OUTPUT_BYTES: nat := 262144

  /** How many bytes a take may send so that no character is cut in two: the scan goes
      back from the end, at most four bytes, for a byte that may start a character. */
  function WholeFrom(data: seq<Byte>, back: nat): (whole: nat)
    requires 1 <= back
    ensures whole <= |data|
    decreases 5 - back
  {
    if back > 4 || back > |data| then |data|
    else if RuneStart(data[|data| - back]) then
      if FullRune(data[|data| - back..]) then |data| else |data| - back
    else WholeFrom(data, back + 1)
  }

  method WholeCharacters(data: seq<Byte>) returns (whole: nat)
    ensures whole == WholeFrom(data, 1)
  {
    var back := 1;
    while back <= 4 && back <= |data|
      invariant 1 <= back && WholeFrom(data, back) == WholeFrom(data, 1)
      decreases 5 - back
    {
      var start := |data| - back;
      if RuneStart(data[start]) {
        if FullRune(data[start..]) {
          return |data|;
        }
        return start;
      }
      back := back + 1;
    }
    return |data|;
  }

  /** The output waiting to be taken, how many bytes were kept in all, and whether any were not. */
  datatype Buffer = Buffer(pending: seq<Byte>, kept: nat, dropped: bool)

  const EMPTY := Buffer([], 0, false)

  function Keep(buffer: Buffer, size: nat): nat {
    if buffer.kept >= OUTPUT_BYTES then 0
    else if size <= OUTPUT_BYTES - buffer.kept then size
    else OUTPUT_BYTES - buffer.kept
  }

  function Written(buffer: Buffer, data: seq<Byte>): Buffer {
    var keep := Keep(buffer, |data|);
    Buffer(buffer.pending + data[..keep], buffer.kept + keep, buffer.dropped || keep < |data|)
  }

  function TakeSize(buffer: Buffer, end: bool): (size: nat)
    ensures size <= |buffer.pending|
  {
    if end then |buffer.pending| else WholeFrom(buffer.pending, 1)
  }

  function Taken(buffer: Buffer, end: bool): Text {
    ToText(buffer.pending[..TakeSize(buffer, end)])
  }

  function Rest(buffer: Buffer, end: bool): Buffer {
    buffer.(pending := buffer.pending[TakeSize(buffer, end)..])
  }

  class Collector {
    var pending: seq<Byte>
    var kept: nat
    var dropped: bool

    function State(): Buffer
      reads this
    {
      Buffer(pending, kept, dropped)
    }

    constructor ()
      ensures State() == EMPTY
    {
      pending, kept, dropped := [], 0, false;
    }

    /** Takes any data and keeps what fits. */
    method Write(data: seq<Byte>)
      requires kept <= OUTPUT_BYTES
      modifies this
      ensures State() == Written(old(State()), data) && kept <= OUTPUT_BYTES
    {
      var keep := if |data| <= OUTPUT_BYTES - kept then |data| else OUTPUT_BYTES - kept;
      if keep < |data| {
        dropped := true;
      }
      pending := pending + data[..keep];
      kept := kept + keep;
    }

    method Take(end: bool) returns (text: Text, truncated: bool)
      modifies this
      ensures text == Taken(old(State()), end) && truncated == old(dropped)
      ensures State() == Rest(old(State()), end)
    {
      var whole := |pending|;
      if !end {
        whole := WholeCharacters(pending);
      }
      text := ToText(pending[..whole]);
      pending := pending[whole..];
      truncated := dropped;
    }
  }

  // ---------------------------------------------------------------- where the scan stops

  /** On bytes that arrived from valid text, the scan finds the longest prefix of whole characters. */
  lemma WholeIsLongest(data: seq<Byte>, whole: nat)
    requires Splits(data, whole)
    ensures WholeFrom(data, 1) == whole
    ensures Valid(data[..whole]) && forall longer :: whole < longer <= |data| ==> !Valid(data[..longer])
  {
    forall longer | whole < longer <= |data| ensures !Valid(data[..longer]) {
      if Valid(data[..longer]) {
        SplitIsLongest(data, whole, longer);
      }
    }
    if whole < |data| {
      ScanReaches(data, |data| - whole, 1);
    } else if data != [] {
      assert data[..whole] == data;
      var start := LastCharacter(data);
      ScanReaches(data, |data| - start, 1);
    }
  }

  /** The scan passes over the tail bytes of the last character and stops at its first byte. */
  lemma {:induction false} ScanReaches(data: seq<Byte>, size: nat, back: nat)
    requires 1 <= back <= size <= |data| && Utf8.Fits(data[|data| - size..])
    ensures WholeFrom(data, back) == if IsPartial(data[|data| - size..]) then |data| - size else |data|
    decreases size - back
  {
    var last := data[|data| - size..];
    assert last[size - back] == data[|data| - back];
    if back < size {
      ScanReaches(data, size, back + 1);
    }
  }

  // ---------------------------------------------------------------- writes and takes in any order

  datatype Op = Write(data: seq<Byte>) | Take

  /** Everything printed, and the buffer and the text taken so far. */
  function Printed(ops: seq<Op>): seq<Byte> {
    if ops == [] then [] else Printed(Front(ops)) + if Last(ops).Write? then Last(ops).data else []
  }

  function After(ops: seq<Op>): Buffer {
    if ops == [] then EMPTY
    else match Last(ops)
         case Write(data) => Written(After(Front(ops)), data)
         case Take => Rest(After(Front(ops)), false)
  }

  function TakenIn(ops: seq<Op>): Text {
    if ops == [] then []
    else TakenIn(Front(ops)) + if Last(ops).Take? then Taken(After(Front(ops)), false) else []
  }

  /** The bytes taken so far. */
  function Consumed(ops: seq<Op>): seq<Byte> {
    if ops == [] then []
    else
      var before := After(Front(ops));
      Consumed(Front(ops)) + if Last(ops).Take? then before.pending[..TakeSize(before, false)] else []
  }

  /** The first bytes up to the limit are kept, in order, and the rest is dropped, which is noted
      exactly when there is a rest. */
  ghost predicate Keeps(printed: seq<Byte>, consumed: seq<Byte>, buffer: Buffer) {
    && buffer.kept == (if |printed| <= 262144 then |printed| else 262144)
    && consumed + buffer.pending == printed[..buffer.kept]
    && (buffer.dropped <==> |printed| > 262144)
  }

  lemma WriteKeeps(printed: seq<Byte>, consumed: seq<Byte>, buffer: Buffer, data: seq<Byte>)
    requires Keeps(printed, consumed, buffer)
    ensures Keeps(printed + data, consumed, Written(buffer, data))
  {
    var keep := Keep(buffer, |data|);
    assert (printed + data)[..buffer.kept + keep] == printed[..buffer.kept] + data[..keep];
    assert consumed + (buffer.pending + data[..keep]) == consumed + buffer.pending + data[..keep];
  }

  lemma TakeKeeps(printed: seq<Byte>, consumed: seq<Byte>, buffer: Buffer)
    requires Keeps(printed, consumed, buffer)
    ensures Keeps(printed, consumed + buffer.pending[..TakeSize(buffer, false)], Rest(buffer, false))
  {
    var size := TakeSize(buffer, false);
    assert consumed + buffer.pending[..size] + buffer.pending[size..] == consumed + buffer.pending;
  }

  /** For any output at all. */
  lemma {:induction false} KeepsTheFirstBytes(ops: seq<Op>)
    ensures Keeps(Printed(ops), Consumed(ops), After(ops))
  {
    if ops != [] {
      var before := Front(ops);
      KeepsTheFirstBytes(before);
      match Last(ops)
      case Write(data) =>
        WriteKeeps(Printed(before), Consumed(before), After(before), data);
        assert Consumed(ops) == Consumed(before);
      case Take =>
        TakeKeeps(Printed(before), Consumed(before), After(before));
        assert Printed(ops) == Printed(before);
    }
  }

  /** A take cuts what has arrived of valid bytes between two characters. */
  lemma TakeIsWhole(stream: seq<Byte>, consumed: seq<Byte>, buffer: Buffer)
    requires Valid(stream) && consumed + buffer.pending <= stream && Valid(consumed)
    ensures var taken := buffer.pending[..TakeSize(buffer, false)];
            Valid(consumed + taken) && ToText(consumed + taken) == ToText(consumed) + Taken(buffer, false)
  {
    var rest := stream[|consumed|..];
    assert stream == consumed + rest && rest[..|buffer.pending|] == buffer.pending;
    ValidConcat(consumed, rest);
    var whole := PrefixSplits(rest, |buffer.pending|);
    WholeIsLongest(buffer.pending, whole);
    ValidConcat(consumed, buffer.pending[..whole]);
    ToTextConcat(consumed, buffer.pending[..whole]);
  }

  lemma {:induction false} TakesWholeCharacters(ops: seq<Op>, stream: seq<Byte>)
    requires Valid(stream) && Printed(ops) <= stream && |Printed(ops)| <= 262144
    ensures Valid(Consumed(ops)) && TakenIn(ops) == ToText(Consumed(ops))
  {
    if ops != [] {
      var before := Front(ops);
      assert Printed(before) <= Printed(ops);
      TakesWholeCharacters(before, stream);
      match Last(ops)
      case Write(_) =>
        assert Consumed(ops) == Consumed(before) && TakenIn(ops) == TakenIn(before);
      case Take =>
        KeepsTheFirstBytes(before);
        TakeIsWhole(stream, Consumed(before), After(before));
    }
  }

  lemma FinalTake(consumed: seq<Byte>, buffer: Buffer)
    requires Valid(consumed)
    ensures ToText(consumed) + Taken(buffer, true) == ToText(consumed + buffer.pending)
  {
    assert buffer.pending[..|buffer.pending|] == buffer.pending;
    ToTextConcat(consumed, buffer.pending);
  }

  /** However valid output within the limit is cut into writes, and whenever it is taken, the texts
      taken and the final take together are the text of the whole output: its bytes without the
      zeros, with no character replaced and nothing dropped. */
  lemma ChunkIndependence(ops: seq<Op>)
    requires Valid(Printed(ops)) && |Printed(ops)| <= 262144
    ensures TakenIn(ops) + Taken(After(ops), true) == ToText(Printed(ops))
    ensures Flatten(TakenIn(ops) + Taken(After(ops), true)) == WithoutZeros(Printed(ops))
    ensures !After(ops).dropped
  {
    KeepsTheFirstBytes(ops);
    TakesWholeCharacters(ops, Printed(ops));
    assert Printed(ops)[..|Printed(ops)|] == Printed(ops);
    FinalTake(Consumed(ops), After(ops));
    ValidTextIsTheBytes(Printed(ops));
  }
}
