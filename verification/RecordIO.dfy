/** The record framing of the Mesos event stream.  The master sends RecordIO: the length of a record
    in decimal, a newline, the record.  The event loop reads lines, so each line it sees is one record
    followed by the header of the next one.  Times, unmarshalling and the event handlers are behind `verdict`. */
module RecordIO {

  newtype byte = x: int | 0 <= x < 256

  type Bytes = seq<byte>

  const NEWLINE: byte := 10
  const MAX_INT := 0x7fff_ffff_ffff_ffff
  const MIN_INT := -0x8000_0000_0000_0000

  /** What became of one delivered record: it did not unmarshal, it was handled,
      or it was a heartbeat while the framework ID was still empty, which ends the loop. */
  datatype Verdict = Undecodable | Handled | Stop

  datatype Ended = Eof | Stopped | Panicked

  /** The records cut out of the stream, those of them that were handled, and how the loop ended. */
  datatype Reading = Reading(records: seq<Bytes>, handled: seq<Bytes>, ended: Ended)

  predicate IsDigit(b: byte) { 48 <= b <= 57 }

  predicate AllDigits(s: Bytes) { forall i | 0 <= i < |s| :: IsDigit(s[i]) }

  predicate NewlineFree(s: Bytes) { NEWLINE !in s }

  function Value(ds: Bytes): nat
    requires AllDigits(ds)
  {
    if |ds| == 0 then 0 else Value(ds[..|ds| - 1]) * 10 + (ds[|ds| - 1] as int - 48)
  }

  const MAX_UINT := 0xffff_ffff_ffff_ffff

  /** How many digits the text starts with. */
  function Digits(s: Bytes): (p: nat)
    ensures p <= |s| && AllDigits(s[..p]) && (p < |s| ==> !IsDigit(s[p]))
  {
    if |s| == 0 || !IsDigit(s[0]) then 0
    else
      var p := 1 + Digits(s[1..]);
      assert s[..p] == [s[0]] + s[1..][..p - 1];
      p
  }

  /** `strconv.Atoi` with its error ignored: 0 for a text that is no number, clamped to 64 bits.  The digits are read
      one by one, so a text whose digits overflow an unsigned 64-bit number is out of range, whatever follows them. */
  function Atoi(s: Bytes): int {
    var signed := |s| > 0 && (s[0] == 43 || s[0] == 45);
    var body := if signed then s[1..] else s;
    var p := Digits(body);
    var size := Value(body[..p]);
    if size <= MAX_UINT && (|body| == 0 || p < |body|) then 0
    else
      var v: int := if s[0] == 45 then -(size as int) else size;
      if v < MIN_INT then MIN_INT else if v > MAX_INT then MAX_INT else v
  }

  function Itoa(n: nat): Bytes {
    (if n < 10 then [] else Itoa(n / 10)) + [(48 + n % 10) as byte]
  }

  /** RecordIO: every record preceded by its length and a newline. */
  function Encode(records: seq<Bytes>): Bytes {
    if |records| == 0 then [] else Itoa(|records[0]|) + [NEWLINE] + records[0] + Encode(records[1..])
  }

  /** Where the next newline is, or the length of `s` when there is none. */
  function LineEnd(s: Bytes): (p: nat)
    ensures p <= |s| && NewlineFree(s[..p])
    ensures p < |s| ==> s[p] == NEWLINE
  {
    if |s| == 0 || s[0] == NEWLINE then 0
    else
      var p := 1 + LineEnd(s[1..]);
      assert s[..p] == [s[0]] + s[1..][..p - 1];
      p
  }

  /** The records so far and one more, with what the handlers made of it. */
  function Deliver(sofar: Reading, data: Bytes, verdict: seq<Bytes> -> Verdict): Reading {
    var r := sofar.(records := sofar.records + [data]);
    match verdict(r.records)
    case Undecodable => r
    case Handled => r.(handled := r.handled + [data])
    case Stop => r.(ended := Stopped)
  }

  /** The loop of the event reader from a stream position on, with `count` the length announced last. */
  function ReadLines(sofar: Reading, rest: Bytes, count: int, verdict: seq<Bytes> -> Verdict): Reading
    decreases |rest|
  {
    var p := LineEnd(rest);
    if p == |rest| then sofar
    else if p < count then ReadLines(sofar, rest[p + 1..], count, verdict)
    else if count < 0 then sofar.(ended := Panicked)
    else
      var r := Deliver(sofar, rest[..count], verdict);
      if r.ended.Stopped? then r else ReadLines(r, rest[p + 1..], Atoi(rest[count..p]), verdict)
  }

  const NOTHING := Reading([], [], Eof)

  /** The whole event loop: the first line is the header of the first record. */
  function ReadStream(input: Bytes, verdict: seq<Bytes> -> Verdict): Reading {
    var p := LineEnd(input);
    ReadLines(NOTHING, if p < |input| then input[p + 1..] else [], Atoi(input[..p]), verdict)
  }

  /** The loop a reader of whole records would run: the reference for the reader above. */
  function Consume(sofar: Reading, records: seq<Bytes>, verdict: seq<Bytes> -> Verdict): Reading
    decreases |records|
  {
    if |records| == 0 then sofar
    else
      var r := Deliver(sofar, records[0], verdict);
      if r.ended.Stopped? then r else Consume(r, records[1..], verdict)
  }

  /** The event loop as the source runs it. */
  method EventLoop(input: Bytes, verdict: seq<Bytes> -> Verdict) returns (r: Reading)
    ensures r == ReadStream(input, verdict)
  {
    hide Atoi;
    var p := LineEnd(input);
    var bytesCount := Atoi(input[..p]);
    var rest := if p < |input| then input[p + 1..] else [];
    r := NOTHING;
    while true
      invariant r.ended.Eof?
      invariant ReadStream(input, verdict) == ReadLines(r, rest, bytesCount, verdict)
      decreases |rest|
    {
      p := LineEnd(rest);
      if p == |rest| {
        return;
      }
      if p < bytesCount {
        rest := rest[p + 1..];
        continue;
      }
      if bytesCount < 0 {
        r := r.(ended := Panicked);
        return;
      }
      var data := rest[..bytesCount];
      bytesCount, rest := Atoi(rest[bytesCount..p]), rest[p + 1..];
      r := r.(records := r.records + [data]);
      match verdict(r.records)
      case Undecodable =>
      case Handled => r := r.(handled := r.handled + [data]);
      case Stop => r := r.(ended := Stopped); return;
    }
  }

  lemma ValueOfAppended(ds: Bytes, d: byte)
    requires AllDigits(ds) && IsDigit(d)
    ensures AllDigits(ds + [d]) && Value(ds + [d]) == Value(ds) * 10 + (d as int - 48)
  {
    assert (ds + [d])[..|ds|] == ds;
  }

  lemma {:induction false} ItoaDigits(n: nat)
    ensures |Itoa(n)| > 0 && AllDigits(Itoa(n)) && Value(Itoa(n)) == n
  {
    var front := if n < 10 then [] else Itoa(n / 10);
    if n >= 10 {
      ItoaDigits(n / 10);
    }
    ValueOfAppended(front, (48 + n % 10) as byte);
  }

  /** Headers survive: the length written is the length read, and no header contains a newline. */
  lemma HeaderRoundTrip(n: nat)
    requires n <= MAX_INT
    ensures Atoi(Itoa(n)) == n && NewlineFree(Itoa(n))
  {
    ItoaDigits(n);
    var ds := Itoa(n);
    assert IsDigit(ds[0]);
    assert Digits(ds) == |ds| && ds[..|ds|] == ds;
  }

  lemma LineEndOf(a: Bytes, b: Bytes)
    requires NewlineFree(a)
    ensures LineEnd(a + [NEWLINE] + b) == |a|
  {
    var s := a + [NEWLINE] + b;
    var p := LineEnd(s);
    assert forall i | 0 <= i < |a| :: s[i] == a[i];
    assert forall i | 0 <= i < p :: s[i] == s[..p][i];
    assert s[|a|] == NEWLINE;
  }

  /** Fewer bytes left than announced: every remaining line is skipped and nothing is delivered. */
  lemma {:induction false} HeldBack(sofar: Reading, rest: Bytes, count: int, verdict: seq<Bytes> -> Verdict)
    requires |rest| <= count
    ensures ReadLines(sofar, rest, count, verdict) == sofar
    decreases |rest|
  {
    var p := LineEnd(rest);
    if p == |rest| {
    } else {
      HeldBack(sofar, rest[p + 1..], count, verdict);
    }
  }

  predicate AllNewlineFree(records: seq<Bytes>) {
    forall i | 0 <= i < |records| :: NewlineFree(records[i])
  }

  /** Whatever the stream, a delivered record never contains a newline. */
  lemma {:induction false} DeliveredAreLines(sofar: Reading, rest: Bytes, count: int, verdict: seq<Bytes> -> Verdict)
    requires AllNewlineFree(sofar.records)
    ensures AllNewlineFree(ReadLines(sofar, rest, count, verdict).records)
    decreases |rest|
  {
    var p := LineEnd(rest);
    if p == |rest| {
    } else {
      if p < count {
        DeliveredAreLines(sofar, rest[p + 1..], count, verdict);
      } else if count >= 0 {
        assert rest[..count] == rest[..p][..count];
        var r := Deliver(sofar, rest[..count], verdict);
        if !r.ended.Stopped? {
          DeliveredAreLines(r, rest[p + 1..], Atoi(rest[count..p]), verdict);
        }
      }
    }
  }

  predicate Sized(records: seq<Bytes>) { forall i | 0 <= i < |records| :: |records[i]| <= MAX_INT }

  lemma EncodeSplit(records: seq<Bytes>)
    requires |records| > 0
    ensures Encode(records) == Itoa(|records[0]|) + [NEWLINE] + (records[0] + Encode(records[1..]))
  {
  }

  lemma FirstLine(header: Bytes, tail: Bytes, verdict: seq<Bytes> -> Verdict)
    requires NewlineFree(header)
    ensures ReadStream(header + [NEWLINE] + tail, verdict) == ReadLines(NOTHING, tail, Atoi(header), verdict)
  {
    var input := header + [NEWLINE] + tail;
    LineEndOf(header, tail);
    assert input[..|header|] == header;
    assert input[|header| + 1..] == tail;
  }

  /** One line of the stream: a newline-free record of the announced length and the next header. */
  lemma OneLine(sofar: Reading, r: Bytes, header: Bytes, tail: Bytes, verdict: seq<Bytes> -> Verdict)
    requires NewlineFree(r) && NewlineFree(header)
    ensures ReadLines(sofar, r + header + [NEWLINE] + tail, |r|, verdict)
         == var d := Deliver(sofar, r, verdict);
            if d.ended.Stopped? then d else ReadLines(d, tail, Atoi(header), verdict)
  {
    var rest := r + header + [NEWLINE] + tail;
    LineEndOf(r + header, tail);
    assert rest[..|r|] == r;
    assert rest[|r|..|r + header|] == header;
    assert rest[|r + header| + 1..] == tail;
  }

  lemma {:induction false} InStep(sofar: Reading, records: seq<Bytes>, last: Bytes, verdict: seq<Bytes> -> Verdict)
    requires Sized(records + [last]) && AllNewlineFree(records)
    ensures var all := records + [last];
            ReadLines(sofar, all[0] + Encode(all[1..]), |all[0]|, verdict) == Consume(sofar, records, verdict)
    decreases |records|
  {
    var all := records + [last];
    if |records| == 0 {
      assert all[0] + Encode(all[1..]) == last;
      HeldBack(sofar, last, |last|, verdict);
    } else {
      var r, next := records[0], all[1..];
      assert next == records[1..] + [last];
      EncodeSplit(next);
      var header, tail := Itoa(|next[0]|), next[0] + Encode(next[1..]);
      HeaderRoundTrip(|next[0]|);
      assert r + Encode(next) == r + header + [NEWLINE] + tail;
      OneLine(sofar, r, header, tail, verdict);
      InStep(Deliver(sofar, r, verdict), records[1..], last, verdict);
    }
  }

  /** On the RecordIO encoding of newline-free records and one more, the line reader behaves exactly as
      a reader of whole records would on the first ones: the last is held until a successor's header arrives. */
  lemma ReaderRefinesRecords(records: seq<Bytes>, last: Bytes, verdict: seq<Bytes> -> Verdict)
    requires Sized(records + [last]) && AllNewlineFree(records)
    ensures ReadStream(Encode(records + [last]), verdict) == Consume(NOTHING, records, verdict)
  {
    var all := records + [last];
    EncodeSplit(all);
    HeaderRoundTrip(|all[0]|);
    FirstLine(Itoa(|all[0]|), all[0] + Encode(all[1..]), verdict);
    InStep(NOTHING, records, last, verdict);
  }

  lemma {:induction false} ConsumeAll(sofar: Reading, records: seq<Bytes>, verdict: seq<Bytes> -> Verdict)
    requires sofar.ended.Eof? && forall h :: verdict(h) != Stop
    ensures Consume(sofar, records, verdict).records == sofar.records + records
    ensures Consume(sofar, records, verdict).ended.Eof?
    decreases |records|
  {
    if |records| == 0 {
    } else {
      ConsumeAll(Deliver(sofar, records[0], verdict), records[1..], verdict);
      assert sofar.records + [records[0]] + records[1..] == sofar.records + records;
    }
  }

  /** The exact condition: as long as no handler ends the loop, the reader delivers all records but the last,
      in order and whether or not they unmarshal, if and only if none of them contains a newline. */
  lemma DeliversExactly(records: seq<Bytes>, last: Bytes, verdict: seq<Bytes> -> Verdict)
    requires Sized(records + [last])
    requires forall h :: verdict(h) != Stop
    ensures ReadStream(Encode(records + [last]), verdict).records == records <==> AllNewlineFree(records)
  {
    hide Encode, ReadLines, Consume, Atoi, NewlineFree, Sized;
    if AllNewlineFree(records) {
      ReaderRefinesRecords(records, last, verdict);
      ConsumeAll(NOTHING, records, verdict);
    } else {
      var input := Encode(records + [last]);
      var p := LineEnd(input);
      DeliveredAreLines(NOTHING, if p < |input| then input[p + 1..] else [], Atoi(input[..p]), verdict);
    }
  }

  // ---------- Whatever the stream ----------

  /** The records that were handled: those on which, with all before them, the verdict is so. */
  function HandledAmong(records: seq<Bytes>, verdict: seq<Bytes> -> Verdict): seq<Bytes> {
    if |records| == 0 then []
    else
      HandledAmong(records[..|records| - 1], verdict)
      + (if verdict(records) == Handled then [records[|records| - 1]] else [])
  }

  /** No verdict so far ended the loop. */
  ghost predicate GoesOn(records: seq<Bytes>, verdict: seq<Bytes> -> Verdict) {
    forall i | 0 < i <= |records| :: verdict(records[..i]) != Stop
  }

  /** The verdicts account for a reading: handled are exactly the delivered records on which the verdict is so, in
      order; and the loop was stopped exactly by the last delivered record. */
  ghost predicate Answered(r: Reading, verdict: seq<Bytes> -> Verdict) {
    && r.handled == HandledAmong(r.records, verdict)
    && GoesOn(if r.ended.Stopped? then r.records[..Positive(|r.records| - 1)] else r.records, verdict)
    && (r.ended.Stopped? ==> |r.records| > 0 && verdict(r.records) == Stop)
  }

  function Positive(i: int): nat { if i < 0 then 0 else i }

  lemma Delivered(sofar: Reading, data: Bytes, verdict: seq<Bytes> -> Verdict)
    requires Answered(sofar, verdict) && sofar.ended.Eof?
    ensures Answered(Deliver(sofar, data, verdict), verdict)
    ensures Deliver(sofar, data, verdict).records == sofar.records + [data]
    ensures Deliver(sofar, data, verdict).ended in {Eof, Stopped}
  {
    var all := sofar.records + [data];
    assert all[..|all| - 1] == sofar.records;
    assert all[..|all|] == all;
    forall i | 0 < i < |all| ensures verdict(all[..i]) != Stop {
      assert all[..i] == sofar.records[..i];
    }
  }

  lemma {:induction false} LinesAnswered(sofar: Reading, rest: Bytes, count: int, verdict: seq<Bytes> -> Verdict)
    requires Answered(sofar, verdict) && sofar.ended.Eof?
    ensures Answered(ReadLines(sofar, rest, count, verdict), verdict)
    decreases |rest|
  {
    hide Answered, Deliver, Atoi;
    var p := LineEnd(rest);
    if p == |rest| {
    } else if p < count {
      LinesAnswered(sofar, rest[p + 1..], count, verdict);
    } else if count < 0 {
      PanicAnswered(sofar, verdict);
    } else {
      var r := Deliver(sofar, rest[..count], verdict);
      Delivered(sofar, rest[..count], verdict);
      if r.ended.Eof? {
        LinesAnswered(r, rest[p + 1..], Atoi(rest[count..p]), verdict);
      }
    }
  }

  lemma PanicAnswered(sofar: Reading, verdict: seq<Bytes> -> Verdict)
    requires Answered(sofar, verdict) && sofar.ended.Eof?
    ensures Answered(sofar.(ended := Panicked), verdict)
  {
  }

  /** Whatever the stream: handled are exactly the delivered records with that verdict, in order; a record that does not
      unmarshal changes nothing; and the loop is stopped exactly at the first record with the verdict Stop, after which
      nothing is delivered. */
  lemma StreamAnswered(input: Bytes, verdict: seq<Bytes> -> Verdict)
    ensures var r := ReadStream(input, verdict);
            && r.handled == HandledAmong(r.records, verdict)
            && (r.ended.Stopped? <==> |r.records| > 0 && verdict(r.records) == Stop)
            && forall i | 0 < i < |r.records| :: verdict(r.records[..i]) != Stop
  {
    var p := LineEnd(input);
    LinesAnswered(NOTHING, if p < |input| then input[p + 1..] else [], Atoi(input[..p]), verdict);
    hide Answered, Atoi, ReadLines, LineEnd;
    AnsweredMeans(ReadStream(input, verdict), verdict);
  }

  lemma AnsweredMeans(r: Reading, verdict: seq<Bytes> -> Verdict)
    requires Answered(r, verdict)
    ensures r.handled == HandledAmong(r.records, verdict)
    ensures r.ended.Stopped? <==> |r.records| > 0 && verdict(r.records) == Stop
    ensures forall i | 0 < i < |r.records| :: verdict(r.records[..i]) != Stop
  {
    hide HandledAmong;
    var n := |r.records|;
    assert r.records[..n] == r.records;
    forall i | 0 < i < n ensures verdict(r.records[..i]) != Stop {
      assert r.records[..n - 1][..i] == r.records[..i];
    }
  }

  // ---------- The framing, line by line ----------

  /** The complete lines of a stream. */
  function Lines(s: Bytes): seq<Bytes> {
    var p := LineEnd(s);
    if p == |s| then [] else [s[..p]] + Lines(s[p + 1..])
  }

  /** A record stands at the start of line `j`, `n` bytes long, and the rest of the line is read as the number
      `next`. */
  ghost predicate Stands(lines: seq<Bytes>, j: nat, n: int, data: Bytes, next: int) {
    j < |lines| && 0 <= n <= |lines[j]| && data == lines[j][..n] && next == Atoi(lines[j][n..])
  }

  /** The lines from `lo` up to `hi` are shorter than `n`. */
  ghost predicate Short(lines: seq<Bytes>, lo: nat, hi: nat, n: int) {
    hi <= |lines| && forall i | lo <= i < hi :: |lines[i]| < n
  }

  /** The line after the one record `k - 1` stands in; line 0 before the first. */
  function Next(js: seq<nat>, k: nat): nat
    requires k <= |js|
  {
    if k == 0 then 0 else js[k - 1] + 1
  }

  /** How records stand in lines, with the lengths `ns` announced for them and for one more: each in the first line,
      from the one after its predecessor's, that is as long as announced. */
  ghost predicate Framed(lines: seq<Bytes>, js: seq<nat>, ns: seq<int>, records: seq<Bytes>) {
    && |js| == |records| && |ns| == |js| + 1
    && forall k {:trigger records[k]} | 0 <= k < |js| ::
         && Next(js, k) <= js[k] && Short(lines, Next(js, k), js[k], ns[k])
         && Stands(lines, js[k], ns[k], records[k], ns[k + 1])
  }

  /** Why no more was delivered: no line was left that is as long as announced; or a negative length was announced and a
      line came, which the source does not survive; or the last record ended the loop. */
  ghost predicate Done(lines: seq<Bytes>, from: nat, next: int, ended: Ended) {
    match ended
    case Eof => Short(lines, from, |lines|, next)
    case Panicked => next < 0 && from < |lines|
    case Stopped => true
  }

  function Later(js: seq<nat>): seq<nat> { seq(|js|, i requires 0 <= i < |js| => js[i] + 1) }

  lemma LaterStands(lines: seq<Bytes>, j: nat, n: int, data: Bytes, next: int)
    requires |lines| > 0 && Stands(lines[1..], j, n, data, next)
    ensures Stands(lines, j + 1, n, data, next)
  {
    hide Atoi;
    assert lines[j + 1] == lines[1..][j];
  }

  lemma LaterShort(lines: seq<Bytes>, lo: nat, hi: nat, n: int)
    requires |lines| > 0 && Short(lines[1..], lo, hi, n)
    ensures Short(lines, lo + 1, hi + 1, n)
  {
    assert forall i | lo + 1 <= i < hi + 1 :: lines[i] == lines[1..][i - 1];
  }

  lemma ShortFirst(lines: seq<Bytes>, hi: nat, n: int)
    requires |lines| > 0 && |lines[0]| < n && Short(lines, 1, hi, n)
    ensures Short(lines, 0, hi, n)
  {
  }

  /** One line more in front, too short for what is announced. */
  lemma FramedSkip(lines: seq<Bytes>, js: seq<nat>, ns: seq<int>, records: seq<Bytes>)
    requires |lines| > 0 && Framed(lines[1..], js, ns, records) && |lines[0]| < ns[0]
    ensures Framed(lines, Later(js), ns, records)
  {
    hide Stands, Short;
    var ms := Later(js);
    forall k | 0 <= k < |js|
      ensures Next(ms, k) <= ms[k] && Short(lines, Next(ms, k), ms[k], ns[k])
      ensures Stands(lines, ms[k], ns[k], records[k], ns[k + 1])
    {
      LaterStands(lines, js[k], ns[k], records[k], ns[k + 1]);
      LaterShort(lines, Next(js, k), js[k], ns[k]);
      if k == 0 {
        ShortFirst(lines, ms[k], ns[k]);
      }
    }
  }

  /** One line more in front, with a record at its start. */
  lemma FramedDeliver(lines: seq<Bytes>, n: int, data: Bytes, js: seq<nat>, ns: seq<int>, records: seq<Bytes>)
    requires |lines| > 0 && Framed(lines[1..], js, ns, records) && Stands(lines, 0, n, data, ns[0])
    ensures Framed(lines, [0] + Later(js), [n] + ns, [data] + records)
  {
    assert Short(lines, 0, 0, n);
    hide Stands, Short;
    var ms, ls, all := [0] + Later(js), [n] + ns, [data] + records;
    forall k | 0 <= k < |ms|
      ensures Next(ms, k) <= ms[k] && Short(lines, Next(ms, k), ms[k], ls[k])
      ensures Stands(lines, ms[k], ls[k], all[k], ls[k + 1])
    {
      if k > 0 {
        LaterStands(lines, js[k - 1], ns[k - 1], records[k - 1], ns[k]);
        LaterShort(lines, Next(js, k - 1), js[k - 1], ns[k - 1]);
      }
    }
  }

  lemma {:induction false} LinesFramed(sofar: Reading, rest: Bytes, count: int, verdict: seq<Bytes> -> Verdict)
    returns (js: seq<nat>, ns: seq<int>)
    requires sofar.ended.Eof?
    ensures var r := ReadLines(sofar, rest, count, verdict);
            && sofar.records <= r.records && |ns| == |js| + 1 && ns[0] == count
            && Framed(Lines(rest), js, ns, r.records[|sofar.records|..])
            && Done(Lines(rest), Next(js, |js|), ns[|js|], r.ended)
    decreases |rest|
  {
    LinesCons(rest);
    hide Atoi, Framed, Done, Deliver, Stands, Lines, Later, LineEnd;
    var p, r, had := LineEnd(rest), ReadLines(sofar, rest, count, verdict), |sofar.records|;
    var lines := Lines(rest);
    if p == |rest| {
      js, ns := [], [count];
      NoneFramed(lines, count, Eof);
      assert r.records[had..] == [];
    } else if p < count {
      js, ns := LinesFramed(sofar, rest[p + 1..], count, verdict);
      FramedSkip(lines, js, ns, r.records[had..]);
      DoneAfter(lines, js, ns, r.records[had..], r.ended);
      js := Later(js);
    } else if count < 0 {
      js, ns := [], [count];
      NoneFramed(lines, count, Panicked);
      assert r.records[had..] == [];
    } else {
      var data, next := rest[..count], Atoi(rest[count..p]);
      var d := Deliver(sofar, data, verdict);
      DeliverAdds(sofar, data, verdict);
      if d.ended.Stopped? {
        js, ns := [], [next];
        NoneFramed(lines[1..], next, Stopped);
        assert r.records[had + 1..] == [];
      } else {
        js, ns := LinesFramed(d, rest[p + 1..], next, verdict);
      }
      FirstStands(rest, count);
      assert r.records[had..] == [data] + r.records[had + 1..];
      js, ns := OneMore(lines, count, data, js, ns, r.records[had + 1..], r.ended);
    }
  }

  lemma LinesCons(rest: Bytes)
    ensures var p := LineEnd(rest);
            if p == |rest| then Lines(rest) == []
            else |Lines(rest)| > 0 && Lines(rest)[0] == rest[..p] && Lines(rest)[1..] == Lines(rest[p + 1..])
  {
    hide LineEnd;
  }

  /** A record in front of the framed ones. */
  lemma OneMore(lines: seq<Bytes>, n: int, data: Bytes, js: seq<nat>, ns: seq<int>, records: seq<Bytes>, ended: Ended)
    returns (ms: seq<nat>, ls: seq<int>)
    requires |lines| > 0 && |ns| == |js| + 1 && Framed(lines[1..], js, ns, records) && Stands(lines, 0, n, data, ns[0])
    requires Done(lines[1..], Next(js, |js|), ns[|js|], ended)
    ensures |ls| == |ms| + 1 && ls[0] == n && Framed(lines, ms, ls, [data] + records)
    ensures Done(lines, Next(ms, |ms|), ls[|ms|], ended)
  {
    FramedDeliver(lines, n, data, js, ns, records);
    DoneLater(lines, Next(js, |js|), ns[|js|], ended);
    hide Framed, Done, Stands;
    ms, ls := [0] + Later(js), [n] + ns;
    assert Next(ms, |ms|) == Next(js, |js|) + 1;
  }

  /** What ends the reading of the other lines ends that of all of them. */
  lemma DoneLater(lines: seq<Bytes>, from: nat, next: int, ended: Ended)
    requires |lines| > 0 && Done(lines[1..], from, next, ended)
    ensures Done(lines, from + 1, next, ended)
    ensures ended.Eof? && from == 0 && |lines[0]| < next ==> Done(lines, 0, next, ended)
    ensures ended.Panicked? && from == 0 ==> Done(lines, 0, next, ended)
  {
    if ended.Eof? {
      LaterShort(lines, from, |lines[1..]|, next);
    }
  }

  lemma DoneAfter(lines: seq<Bytes>, js: seq<nat>, ns: seq<int>, records: seq<Bytes>, ended: Ended)
    requires |lines| > 0 && Framed(lines[1..], js, ns, records) && Done(lines[1..], Next(js, |js|), ns[|js|], ended)
    requires |lines[0]| < ns[0]
    ensures |Later(js)| == |js| && Done(lines, Next(Later(js), |js|), ns[|js|], ended)
  {
    hide Stands, Short, Done;
    DoneLater(lines, Next(js, |js|), ns[|js|], ended);
    if |js| == 0 && ended.Stopped? {
      DoneStopped(lines, ns[0]);
    }
  }

  lemma DoneStopped(lines: seq<Bytes>, next: int)
    ensures forall from: nat :: Done(lines, from, next, Stopped)
  {
  }

  lemma FirstStands(rest: Bytes, count: nat)
    requires var p := LineEnd(rest); p < |rest| && count <= p
    ensures Stands(Lines(rest), 0, count, rest[..count], Atoi(rest[count..LineEnd(rest)]))
  {
    LinesCons(rest);
    hide Atoi, Lines, LineEnd;
    var p := LineEnd(rest);
    assert rest[..p][..count] == rest[..count] && rest[..p][count..] == rest[count..p];
  }

  lemma DeliverAdds(sofar: Reading, data: Bytes, verdict: seq<Bytes> -> Verdict)
    requires sofar.ended.Eof?
    ensures Deliver(sofar, data, verdict).records == sofar.records + [data]
    ensures Deliver(sofar, data, verdict).ended in {Eof, Stopped}
  {
  }

  lemma NoneFramed(lines: seq<Bytes>, count: int, ended: Ended)
    requires match ended
             case Eof => lines == []
             case Panicked => count < 0 && |lines| > 0
             case Stopped => true
    ensures Framed(lines, [], [count], []) && Done(lines, 0, count, ended)
  {
  }

  /** Whatever the stream: its first line announces a length; each record then is the beginning of the first line, after
      that of its predecessor, that is as long as announced, and the rest of that line announces the next length; and
      the loop ends only when no line is long enough, when a negative length was announced, or by a handler. */
  lemma StreamFramed(input: Bytes, verdict: seq<Bytes> -> Verdict) returns (js: seq<nat>, ns: seq<int>)
    requires |Lines(input)| > 0
    ensures var lines, r := Lines(input), ReadStream(input, verdict);
            && Framed(lines[1..], js, ns, r.records) && ns[0] == Atoi(lines[0])
            && Done(lines[1..], Next(js, |js|), ns[|js|], r.ended)
  {
    hide Atoi, Framed, Done;
    var p := LineEnd(input);
    js, ns := LinesFramed(NOTHING, input[p + 1..], Atoi(input[..p]), verdict);
    assert ReadStream(input, verdict).records[0..] == ReadStream(input, verdict).records;
  }

  /** Without a complete line nothing is read. */
  lemma NoLine(input: Bytes, verdict: seq<Bytes> -> Verdict)
    requires Lines(input) == []
    ensures ReadStream(input, verdict) == NOTHING
  {
    hide Atoi;
  }

  // ---------- Numbers ----------

  /** The nearest signed 64-bit number. */
  function Clamped(v: int): int {
    if v < -0x8000_0000_0000_0000 then -0x8000_0000_0000_0000
    else if v > 0x7fff_ffff_ffff_ffff then 0x7fff_ffff_ffff_ffff
    else v
  }

  function Signed(sign: Bytes, size: nat): int { if |sign| > 0 && sign[0] == 45 then 0 - size else size }

  lemma AtoiParts(sign: Bytes, body: Bytes)
    requires |sign| == 0 || (|sign| == 1 && sign[0] in {43, 45})
    requires |sign| == 0 ==> |body| == 0 || body[0] !in {43, 45}
    ensures var p, v := Digits(body), Value(body[..Digits(body)]);
            Atoi(sign + body)
            == if v <= MAX_UINT && (|body| == 0 || p < |body|) then 0 else Clamped(Signed(sign, v))
  {
    assert |body| == 0 ==> Value(body[..Digits(body)]) == 0;
    hide Digits, Value;
    if |sign| == 0 {
      assert sign + body == body;
    } else {
      assert (sign + body)[0] == sign[0] && (sign + body)[1..] == body;
    }
  }

  /** What is read as a number: digits, after a sign or none, as their value, clamped; anything else as 0, unless its
      leading digits are too large for an unsigned 64-bit number. */
  lemma AtoiMeans(sign: Bytes, ds: Bytes, more: Bytes)
    requires |sign| == 0 || (|sign| == 1 && sign[0] in {43, 45})
    requires (forall i | 0 <= i < |ds| :: 48 <= ds[i] <= 57) && (|more| == 0 || !(48 <= more[0] <= 57))
    requires |sign| == 0 && |ds| == 0 ==> |more| == 0 || more[0] !in {43, 45}
    ensures Atoi(sign + (ds + more))
         == if (|ds| > 0 && |more| == 0) || Value(ds) > 0xffff_ffff_ffff_ffff then Clamped(Signed(sign, Value(ds)))
            else 0
  {
    var body := ds + more;
    DigitsSplit(ds, more);
    assert body[..|ds|] == ds;
    assert |ds| > 0 ==> IsDigit(body[0]);
    assert |ds| == 0 ==> Value(ds) == 0;
    hide Digits, Value, Atoi, AllDigits;
    AtoiParts(sign, body);
  }

  lemma {:induction false} DigitsSplit(ds: Bytes, more: Bytes)
    requires AllDigits(ds) && (more == [] || !IsDigit(more[0]))
    ensures Digits(ds + more) == |ds|
  {
    if |ds| == 0 {
      assert ds + more == more;
    } else {
      assert (ds + more)[0] == ds[0] && (ds + more)[1..] == ds[1..] + more;
      assert IsDigit(ds[0]);
      DigitsSplit(ds[1..], more);
    }
  }
}
