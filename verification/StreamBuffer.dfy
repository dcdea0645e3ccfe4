/** The start and the end of an output stream, kept while it is read (commands/exec/pipe.rs). */
module StreamBuffer {
  import opened Integers

  type Byte = x: int | 0 <= x < 256

  datatype KeptOutput = KeptOutput(head: seq<Byte>, dropped: nat, tail: seq<Byte>)

  /** The first `limit` bytes, as far as there are any. */
  function First(s: seq<Byte>, limit: nat): seq<Byte> {
    s[..Min(limit, |s|)]
  }

  function Last(s: seq<Byte>, limit: nat): seq<Byte> {
    s[|s| - Min(limit, |s|)..]
  }

  /** What a summary of a whole stream is: its first bytes, the last of the others, and the
      number of the rest. */
  function Summary(headLimit: nat, tailLimit: nat, stream: seq<Byte>): KeptOutput {
    var head := First(stream, headLimit);
    var tail := Last(stream[|head|..], tailLimit);
    KeptOutput(head, |stream| - |head| - |tail|, tail)
  }

  /** Head, dropped bytes and tail make up the stream. The head is filled first, and with bytes
      dropped both are full. With nothing dropped, head and tail are the stream. */
  lemma SummaryCovers(headLimit: nat, tailLimit: nat, stream: seq<Byte>)
    ensures var k := Summary(headLimit, tailLimit, stream);
            && |k.head| <= headLimit && |k.tail| <= tailLimit
            && (|k.head| < headLimit ==> k.head == stream)
            && (k.dropped > 0 ==> |k.head| == headLimit && |k.tail| == tailLimit)
            && |k.head| + k.dropped + |k.tail| == |stream|
            && stream == k.head + stream[|k.head|..|k.head| + k.dropped] + k.tail
            && (k.dropped == 0 <==> |stream| <= headLimit + tailLimit)
            && (k.dropped == 0 ==> k.head + k.tail == stream)
  {
    var k := Summary(headLimit, tailLimit, stream);
    assert k.tail == stream[|k.head| + k.dropped..];
  }

  function Decimal(n: nat): string {
    if n < 10 then ["0123456789"[n]] else Decimal(n / 10) + ["0123456789"[n % 10]]
  }

  function ValueOf(digits: string): nat {
    if digits == "" then 0
    else
      var last := digits[|digits| - 1];
      10 * ValueOf(digits[..|digits| - 1]) + if '0' <= last <= '9' then (last - '0') as int else 0
  }

  lemma DigitIs(d: nat)
    requires d < 10
    ensures '0' <= "0123456789"[d] <= '9' && ("0123456789"[d] - '0') as int == d
  {
  }

  /** The number is written with its decimal digits and no leading zero. */
  lemma {:induction false} DecimalIsValue(n: nat)
    ensures Decimal(n) != "" && ValueOf(Decimal(n)) == n && (n > 0 ==> Decimal(n)[0] != '0')
  {
    var text, last := Decimal(n), ["0123456789"[n % 10]];
    DigitIs(n % 10);
    if n < 10 {
      assert text == last && text[..0] == "";
    } else {
      DecimalIsValue(n / 10);
      assert text == Decimal(n / 10) + last && text[..|text| - 1] == Decimal(n / 10);
    }
  }

  function Note(dropped: nat): string {
    "[" + Decimal(dropped) + " bytes not kept]\n"
  }

  predicate LineStart(text: string) {
    text == "" || text[|text| - 1] == '\n'
  }

  /** `decode` stands for the conversion to text, which replaces invalid UTF-8. */
  function IntoText(k: KeptOutput, decode: seq<Byte> -> string): string {
    if k.dropped == 0 then decode(k.head + k.tail)
    else
      var text := decode(k.head);
      (if LineStart(text) then text else text + "\n") + Note(k.dropped) + decode(k.tail)
  }

  /** A stream within the limits is decoded whole, so no character is cut where the head ends.
      A longer one names the bytes that are not kept on a line of its own. */
  lemma TextOfSummary(headLimit: nat, tailLimit: nat, stream: seq<Byte>, decode: seq<Byte> -> string)
    ensures var text := IntoText(Summary(headLimit, tailLimit, stream), decode);
            if |stream| <= headLimit + tailLimit then text == decode(stream)
            else
              var head := decode(stream[..headLimit]);
              var line := if head == "" || head[|head| - 1] == '\n' then head else head + "\n";
              var note := "[" + Decimal(|stream| - headLimit - tailLimit) + " bytes not kept]\n";
              text == line + note + decode(stream[|stream| - tailLimit..])
  {
    hide Decimal;
    var k := Summary(headLimit, tailLimit, stream);
    SummaryCovers(headLimit, tailLimit, stream);
    if |stream| > headLimit + tailLimit {
      assert k.tail == stream[|stream| - tailLimit..];
      assert k.head == stream[..headLimit];
    }
  }

  class StreamBuffer {
    const headLimit: nat
    const tailLimit: nat
    var head: seq<Byte>
    var tail: seq<Byte>
    var dropped: nat
    var taken: bool
    /** Every byte pushed before the take. */
    ghost var stream: seq<Byte>

    ghost predicate Valid()
      reads this
    {
      var k := Summary(headLimit, tailLimit, stream);
      && dropped == k.dropped
      && (if taken then head == [] && tail == [] else head == k.head && tail == k.tail)
    }

    constructor (headLimit: nat, tailLimit: nat)
      ensures Valid() && !taken && stream == []
      ensures this.headLimit == headLimit && this.tailLimit == tailLimit
    {
      this.headLimit, this.tailLimit := headLimit, tailLimit;
      head, tail, dropped, taken, stream := [], [], 0, false, [];
    }

    method Push(bytes: seq<Byte>)
      requires Valid()
      modifies this
      ensures Valid() && taken == old(taken)
      ensures stream == if taken then old(stream) else old(stream) + bytes
      ensures taken ==> dropped == old(dropped)
    {
      if taken {
        return;
      }
      ghost var k := KeptOutput(head, dropped, tail);
      PushSummary(headLimit, tailLimit, stream, bytes);
      var room := headLimit - |head|;
      var cut := Min(room, |bytes|);
      var longer := tail + bytes[cut..];
      var excess := if |longer| < tailLimit then 0 else |longer| - tailLimit;
      assert longer[excess..] == Last(longer, tailLimit);
      assert KeptOutput(head + bytes[..cut], dropped + excess, longer[excess..])
             == Pushed(k, bytes, headLimit, tailLimit);
      hide Pushed; hide Summary; hide Last; hide First;
      head, tail, dropped := head + bytes[..cut], longer[excess..], dropped + excess;
      stream := stream + bytes;
    }

    method Take() returns (kept: KeptOutput)
      requires Valid()
      modifies this
      ensures Valid() && taken && stream == old(stream)
      ensures !old(taken) ==> kept == Summary(headLimit, tailLimit, stream)
    {
      taken := true;
      kept := KeptOutput(head, dropped, tail);
      head, tail := [], [];
    }
  }

  lemma LastAppend(s: seq<Byte>, more: seq<Byte>, limit: nat)
    ensures var tail := Last(s, limit) + more;
            Last(s + more, limit) == Last(tail, limit) && |s| - |Last(s, limit)| + |tail| == |s + more|
  {
    var tail := Last(s, limit) + more;
    assert s + more == s[..|s| - Min(limit, |s|)] + tail;
  }

  lemma HeadAppend(s: seq<Byte>, bytes: seq<Byte>, limit: nat)
    ensures var head := First(s, limit);
            var cut := Min(limit - |head|, |bytes|);
            && First(s + bytes, limit) == head + bytes[..cut]
            && (s + bytes)[|head| + cut..] == s[|head|..] + bytes[cut..]
  {
    var head := First(s, limit);
    var cut := Min(limit - |head|, |bytes|);
    if |head| < |s| {
      assert cut == 0;
    }
  }

  /** What a push makes of what is kept. */
  function Pushed(k: KeptOutput, bytes: seq<Byte>, headLimit: nat, tailLimit: nat): KeptOutput
    requires |k.head| <= headLimit
  {
    var cut := Min(headLimit - |k.head|, |bytes|);
    var tail := k.tail + bytes[cut..];
    KeptOutput(k.head + bytes[..cut], k.dropped + |tail| - |Last(tail, tailLimit)|, Last(tail, tailLimit))
  }

  /** Pushing onto the summary of a stream gives the summary of the longer stream. */
  lemma PushSummary(headLimit: nat, tailLimit: nat, stream: seq<Byte>, bytes: seq<Byte>)
    ensures |Summary(headLimit, tailLimit, stream).head| <= headLimit
    ensures Pushed(Summary(headLimit, tailLimit, stream), bytes, headLimit, tailLimit)
         == Summary(headLimit, tailLimit, stream + bytes)
  {
    hide First;
    hide Last;
    FirstFits(stream, headLimit);
    var head := First(stream, headLimit);
    var cut := Min(headLimit - |head|, |bytes|);
    var rest, more := stream[|head|..], bytes[cut..];
    var last := Last(rest, tailLimit) + more;
    HeadAppend(stream, bytes, headLimit);
    LastAppend(rest, more, tailLimit);
    assert Summary(headLimit, tailLimit, stream + bytes).head == head + bytes[..cut];
    assert Summary(headLimit, tailLimit, stream + bytes).tail == Last(last, tailLimit);
  }

  lemma FirstFits(s: seq<Byte>, limit: nat)
    ensures |First(s, limit)| <= limit && |First(s, limit)| <= |s|
  {
  }

  // ---------------------------------------------------------------- the reader

  datatype ReadResult = Chunk(bytes: seq<Byte>) | Interrupted | Failed

  /** A read of nothing is the end of the pipe. */
  predicate Ends(result: ReadResult) {
    result.Failed? || (result.Chunk? && result.bytes == [])
  }

  /** The bytes that the reads deliver up to the end of the pipe or the first error. */
  function Delivered(results: seq<ReadResult>): seq<Byte> {
    if results == [] || Ends(results[0]) then []
    else (if results[0].Chunk? then results[0].bytes else []) + Delivered(results[1..])
  }

  /** What one read delivers, and whether more is read after it: an interrupted read is repeated,
      and a read of nothing or an error ends the reading. */
  lemma DeliveredFirst(result: ReadResult, later: seq<ReadResult>)
    ensures Delivered([result] + later)
         == match result
            case Chunk(bytes) => if bytes == [] then [] else bytes + Delivered(later)
            case Interrupted => Delivered(later)
            case Failed => []
  {
    assert ([result] + later)[1..] == later;
  }

  /** An interrupted read changes neither what is delivered nor whether the pipe comes to its end. */
  lemma {:induction false} InterruptedReadIgnored(before: seq<ReadResult>, later: seq<ReadResult>)
    ensures Delivered(before + [Interrupted] + later) == Delivered(before + later)
    ensures Finishes(before + [Interrupted] + later) <==> Finishes(before + later)
  {
    var all := before + [Interrupted] + later;
    if before == [] {
      assert all == [Interrupted] + later && before + later == later;
      DeliveredFirst(Interrupted, later);
      FinishesFirst(Interrupted, later);
    } else {
      assert all == [before[0]] + (before[1..] + [Interrupted] + later);
      assert before + later == [before[0]] + (before[1..] + later);
      InterruptedReadIgnored(before[1..], later);
      DeliveredFirst(before[0], before[1..] + [Interrupted] + later);
      DeliveredFirst(before[0], before[1..] + later);
      FinishesFirst(before[0], before[1..] + [Interrupted] + later);
      FinishesFirst(before[0], before[1..] + later);
    }
  }

  lemma EndsLater(results: seq<ReadResult>, i: nat)
    requires i > 0 && EndsAt(results, i)
    ensures !Ends(results[0]) && EndsAt(results[1..], i - 1)
  {
  }

  lemma FinishesFirst(result: ReadResult, later: seq<ReadResult>)
    ensures Finishes([result] + later) <==> result == Chunk([]) || (!Ends(result) && Finishes(later))
  {
    var all := [result] + later;
    assert all[0] == result && all[1..] == later;
    if i: nat :| i > 0 && EndsAt(all, i) {
      EndsLater(all, i);
    }
    if result == Chunk([]) {
      assert EndsAt(all, 0);
    } else if !Ends(result) && Finishes(later) {
      var i: nat :| EndsAt(later, i);
      assert forall j | 0 < j < i + 1 :: all[j] == later[j - 1];
      assert EndsAt(all, i + 1);
    }
  }

  lemma {:induction false} DeliveredMore(results: seq<ReadResult>, result: ReadResult)
    requires forall r | r in results :: !Ends(r)
    ensures Delivered(results + [result])
         == Delivered(results) + if Ends(result) || !result.Chunk? then [] else result.bytes
  {
    if results == [] {
      assert [result][1..] == [];
    } else {
      assert (results + [result])[1..] == results[1..] + [result];
      DeliveredMore(results[1..], result);
    }
  }

  lemma {:induction false} DeliveredEnds(results: seq<ReadResult>, end: ReadResult, later: seq<ReadResult>)
    requires Ends(end) && forall r | r in results :: !Ends(r)
    ensures Delivered(results + [end] + later) == Delivered(results)
  {
    if results == [] {
      assert ([end] + later)[0] == end;
    } else {
      assert (results + [end] + later)[1..] == results[1..] + [end] + later;
      DeliveredEnds(results[1..], end, later);
    }
  }

  lemma NothingDelivered()
    ensures Delivered([]) == []
  {
  }

  /** The pipe came to its end at the i-th read, without an error before. */
  ghost predicate EndsAt(results: seq<ReadResult>, i: nat) {
    i < |results| && results[i] == Chunk([]) && forall j | 0 <= j < i :: !Ends(results[j])
  }

  ghost predicate Finishes(results: seq<ReadResult>) {
    exists i: nat :: EndsAt(results, i)
  }

  /** The reader thread, and a take when `takeAfter` reads are done, or at the end. `finished`
      says whether the pipe was read to its end without an error. */
  method ReadPipe(headLimit: nat, tailLimit: nat, results: seq<ReadResult>, takeAfter: nat)
    returns (kept: KeptOutput, finished: bool)
    ensures kept == Summary(headLimit, tailLimit, Delivered(results[..Min(takeAfter, |results|)]))
    ensures finished <==> Finishes(results)
  {
    hide Summary;
    hide Delivered;
    NothingDelivered();
    var buffer := new StreamBuffer(headLimit, tailLimit);
    var i := 0;
    finished := false;
    kept := KeptOutput([], 0, []);
    while i < |results| && !Ends(results[i])
      invariant i <= |results| && fresh(buffer) && buffer.Valid()
      invariant buffer.headLimit == headLimit && buffer.tailLimit == tailLimit
      invariant forall j | 0 <= j < i :: !Ends(results[j])
      invariant buffer.taken <==> i > takeAfter
      invariant if buffer.taken then kept == Summary(headLimit, tailLimit, Delivered(results[..takeAfter]))
                else buffer.stream == Delivered(results[..i])
    {
      if i == takeAfter {
        kept := buffer.Take();
      }
      DeliveredNext(results, i);
      if results[i].Chunk? {
        buffer.Push(results[i].bytes);
      }
      i := i + 1;
    }
    if i < |results| {
      finished := results[i].Chunk?;
      assert finished ==> EndsAt(results, i);
      DeliveredPrefix(results, i, Min(takeAfter, |results|));
    }
    if !buffer.taken {
      kept := buffer.Take();
    }
    assert results[..|results|] == results;
  }

  lemma DeliveredNext(results: seq<ReadResult>, i: nat)
    requires i < |results| && forall j | 0 <= j <= i :: !Ends(results[j])
    ensures Delivered(results[..i + 1]) == Delivered(results[..i]) + if results[i].Chunk? then results[i].bytes else []
  {
    assert results[..i + 1] == results[..i] + [results[i]];
    DeliveredMore(results[..i], results[i]);
  }

  /** Nothing is delivered after the end of the pipe. */
  lemma DeliveredPrefix(results: seq<ReadResult>, end: nat, n: nat)
    requires end < |results| && Ends(results[end]) && n <= |results|
    requires forall j | 0 <= j < end :: !Ends(results[j])
    ensures n >= end ==> Delivered(results[..n]) == Delivered(results[..end])
  {
    if n > end {
      assert results[..n] == results[..end] + [results[end]] + results[end + 1..n];
      DeliveredEnds(results[..end], results[end], results[end + 1..n]);
    }
  }
}
