/**
  The four stages of the streaming pipeline and their store
  (Executor/py_guest/python/stream_pipeline.py). Records are ASCII byte strings.
 */
module StreamStages {
  import opened Prelude
  import opened Text
  import opened Pipeline

  const PIPELINE_BATCH: nat := 20

  // ---------------------------------------------------------------------------
  // Integers as the guest language reads them
  // ---------------------------------------------------------------------------

  predicate IsAsciiSpace(c: char) { '\t' <= c <= '\r' || c == ' ' }

  function StripLeft(s: string): string {
    if s != [] && IsAsciiSpace(s[0]) then StripLeft(s[1..]) else s
  }

  function StripRight(s: string): string {
    if s != [] && IsAsciiSpace(s[|s| - 1]) then StripRight(s[..|s| - 1]) else s
  }

  /** Drops every trailing '|' and 'T'. */
  function StripMarks(s: string): string {
    if s != [] && (s[|s| - 1] == '|' || s[|s| - 1] == 'T') then StripMarks(s[..|s| - 1]) else s
  }

  /** Digits, with single underscores allowed between them. */
  function Number(s: string): Option<nat> {
    if s == [] || !IsDigit(s[|s| - 1]) then None
    else if |s| == 1 then Some(DigitValue(s[0]))
    else
      var rest := if s[|s| - 2] == '_' then s[..|s| - 2] else s[..|s| - 1];
      match Number(rest)
      case None => None
      case Some(v) => Some(v * 10 + DigitValue(s[|s| - 1]))
  }

  function ParseInt(s: string): Option<int> {
    var t := StripRight(StripLeft(s));
    var signed := t != [] && (t[0] == '-' || t[0] == '+');
    match Number(if signed then t[1..] else t)
    case None => None
    case Some(v) =>
      var sign: int := if signed && t[0] == '-' then -1 else 1;
      Some(sign * v)
  }

  lemma {:induction false} NumberDigits(s: string)
    requires AllDigits(s) && s != []
    ensures Number(s) == Some(Value(s))
  {
    if |s| == 1 {
      assert s[..0] == [];
    } else {
      assert s[|s| - 2] in s;
      NumberDigits(s[..|s| - 1]);
    }
  }

  lemma {:induction false} ParseDigits(s: string)
    requires AllDigits(s) && s != []
    ensures ParseInt(s) == Some(Value(s))
  {
    assert s[0] in s && s[|s| - 1] in s;
    NumberDigits(s);
  }

  function Signed(n: int): string { if n < 0 then "-" + Dec(-n) else Dec(n) }

  // ---------------------------------------------------------------------------
  // The stages as functions of their batch
  // ---------------------------------------------------------------------------

  function SourceRecord(r: nat, i: nat): string {
    "r=" + Dec(r) + ",i=" + Padded(i, 2) + ",v=" + Padded(r * 1000 + i, 5)
  }

  function SourceUpTo(r: nat, n: nat): seq<string> {
    if n == 0 then [] else SourceUpTo(r, n - 1) + [SourceRecord(r, n - 1)]
  }

  function SourceBatch(r: nat): seq<string> { SourceUpTo(r, PIPELINE_BATCH) }

  /** The text behind the first '=' (up to the next one) of comma field f. */
  function Field(rec: string, f: nat): Option<string> {
    var fields := Split(rec, ',');
    if f >= |fields| then None
    else
      var parts := Split(fields[f], '=');
      if |parts| < 2 then None else Some(parts[1])
  }

  function Item(rec: string): Option<int> {
    match Field(rec, 1)
    case None => None
    case Some(v) => ParseInt(v)
  }

  predicate Keeps(rec: string) { Item(rec).Some? && Item(rec).value % 2 == 0 }

  function FilterBatch(b: seq<string>): seq<string> {
    if b == [] then []
    else FilterBatch(b[..|b| - 1]) + (if Keeps(b[|b| - 1]) then [b[|b| - 1]] else [])
  }

  function TransformBatch(b: seq<string>): seq<string> {
    if b == [] then [] else TransformBatch(b[..|b| - 1]) + [b[|b| - 1] + "|T"]
  }

  /** The value of a record; malformed records count as nothing. */
  function SinkValue(rec: string): int {
    match Field(rec, 2)
    case None => 0
    case Some(v) => OrElse(ParseInt(StripMarks(v)), 0)
  }

  function SinkSum(b: seq<string>): int {
    if b == [] then 0 else SinkSum(b[..|b| - 1]) + SinkValue(b[|b| - 1])
  }

  function Summary(count: nat, sum: int): string {
    "batch_count=" + Dec(count) + ",value_sum=" + Signed(sum)
  }

  function SinkBatch(b: seq<string>): seq<string> {
    if b == [] then [] else [Summary(|b|, SinkSum(b))]
  }

  // ---------------------------------------------------------------------------
  // The stages as the workers run them
  // ---------------------------------------------------------------------------

  function SlotOf(slots: map<nat, seq<string>>, i: nat): seq<string> {
    if i in slots then slots[i] else []
  }

  /** Slot out gained the records b; every other slot reads as before. */
  ghost predicate Extended(before: map<nat, seq<string>>, after: map<nat, seq<string>>, out: nat, b: seq<string>) {
    && SlotOf(after, out) == SlotOf(before, out) + b
    && forall i :: i != out ==> SlotOf(after, i) == SlotOf(before, i)
  }

  class Store {
    var slots: map<nat, seq<string>>
    var cursors: map<nat, nat>
    var watermarks: map<nat, nat>

    function Slot(i: nat): seq<string>
      reads this
    {
      SlotOf(slots, i)
    }

    function Cursor(i: nat): nat
      reads this
    {
      if i in cursors then cursors[i] else 0
    }

    function Watermark(i: nat): nat
      reads this
    {
      if i in watermarks then watermarks[i] else 0
    }

    /** The part of slot i between the stage's cursor and the watermark. */
    function Input(i: nat): seq<string>
      reads this
    {
      var (start, end) := Window(Cursor(i), Watermark(i), |Slot(i)|);
      Slot(i)[start..end]
    }

    function InputEnd(i: nat): nat
      reads this
    {
      Window(Cursor(i), Watermark(i), |Slot(i)|).1
    }

    method AppendStream(i: nat, rec: string, ghost start: map<nat, seq<string>>, ghost b: seq<string>)
      requires Extended(start, slots, i, b)
      modifies this`slots
      ensures Extended(start, slots, i, b + [rec])
      ensures slots == old(slots)[i := old(Slot(i)) + [rec]]
    {
      slots := slots[i := Slot(i) + [rec]];
    }

    method Source(out: nat, round: nat)
      modifies this`slots
      ensures Extended(old(slots), slots, out, SourceBatch(round))
    {
      for i := 0 to PIPELINE_BATCH
        invariant Extended(old(slots), slots, out, SourceUpTo(round, i))
      {
        AppendStream(out, SourceRecord(round, i), old(slots), SourceUpTo(round, i));
      }
    }

    method Filter(in_: nat, out: nat)
      modifies this`slots, this`cursors
      ensures cursors == old(cursors)[in_ := old(InputEnd(in_))]
      ensures Extended(old(slots), slots, out, FilterBatch(old(Input(in_))))
    {
      var all := Slot(in_);
      var (start, end) := Window(Cursor(in_), Watermark(in_), |all|);
      var window := all[start..end];
      for n := 0 to |window|
        invariant Extended(old(slots), slots, out, FilterBatch(window[..n])) && cursors == old(cursors)
      {
        FilterNext(window, n);
        var item := Item(window[n]);
        if item.Some? && item.value % 2 == 0 {
          AppendStream(out, window[n], old(slots), FilterBatch(window[..n]));
        }
      }
      assert window[..|window|] == window;
      cursors := cursors[in_ := end];
    }

    method Transform(in_: nat, out: nat)
      modifies this`slots, this`cursors
      ensures cursors == old(cursors)[in_ := old(InputEnd(in_))]
      ensures Extended(old(slots), slots, out, TransformBatch(old(Input(in_))))
    {
      var all := Slot(in_);
      var (start, end) := Window(Cursor(in_), Watermark(in_), |all|);
      var window := all[start..end];
      for n := 0 to |window|
        invariant Extended(old(slots), slots, out, TransformBatch(window[..n])) && cursors == old(cursors)
      {
        TransformNext(window, n);
        AppendStream(out, window[n] + "|T", old(slots), TransformBatch(window[..n]));
      }
      assert window[..|window|] == window;
      cursors := cursors[in_ := end];
    }

    method Sink(in_: nat, out: nat)
      modifies this`slots, this`cursors
      ensures cursors == old(cursors)[in_ := old(InputEnd(in_))]
      ensures Extended(old(slots), slots, out, SinkBatch(old(Input(in_))))
    {
      var all := Slot(in_);
      var (start, end) := Window(Cursor(in_), Watermark(in_), |all|);
      var window := all[start..end];
      if |window| > 0 {
        var sum := 0;
        for n := 0 to |window|
          invariant sum == SinkSum(window[..n]) && slots == old(slots)
        {
          assert window[..n + 1][..n] == window[..n];
          sum := sum + SinkValue(window[n]);
        }
        assert window[..|window|] == window;
        AppendStream(out, Summary(|window|, sum), old(slots), []);
      }
      cursors := cursors[in_ := end];
    }
  }

  lemma {:induction false} FilterNext(b: seq<string>, n: nat)
    requires n < |b|
    ensures FilterBatch(b[..n + 1]) == if Keeps(b[n]) then FilterBatch(b[..n]) + [b[n]] else FilterBatch(b[..n])
  {
    assert b[..n + 1][..n] == b[..n];
  }

  lemma {:induction false} TransformNext(b: seq<string>, n: nat)
    requires n < |b|
    ensures TransformBatch(b[..n + 1]) == TransformBatch(b[..n]) + [b[n] + "|T"]
  {
    assert b[..n + 1][..n] == b[..n];
  }

  // ---------------------------------------------------------------------------
  // What the pipeline reports
  // ---------------------------------------------------------------------------

  /** The three comma fields of a record, with anything after the value. */
  lemma {:induction false} RecordFields(r: string, i: string, v: string, tail: string)
    requires AllDigits(r) && AllDigits(i) && AllDigits(v) && ',' !in tail && '=' !in tail
    ensures var rec := "r=" + r + ",i=" + i + ",v=" + v + tail;
            Field(rec, 1) == Some(i) && Field(rec, 2) == Some(v + tail)
  {
    var rec := "r=" + r + ",i=" + i + ",v=" + v + tail;
    var a, b, c := "r=" + r, "i=" + i, "v=" + v + tail;
    assert rec == a + [','] + (b + [','] + c);
    SplitFirst(a, ',', b + [','] + c);
    SplitFirst(b, ',', c);
    SplitNone(c, ',');
    assert b == "i" + ['='] + i && c == "v" + ['='] + (v + tail);
    SplitFirst("i", '=', i);
    SplitNone(i, '=');
    SplitFirst("v", '=', v + tail);
    SplitNone(v + tail, '=');
  }

  lemma {:induction false} SourceKept(r: nat, i: nat)
    ensures Keeps(SourceRecord(r, i)) <==> i % 2 == 0
  {
    RecordFields(Dec(r), Padded(i, 2), Padded(r * 1000 + i, 5), "");
    assert SourceRecord(r, i) + "" == SourceRecord(r, i);
    ParseDigits(Padded(i, 2));
    ValuePadded(i, 2);
  }

  lemma {:induction false} StripMark(v: string)
    requires AllDigits(v) && v != []
    ensures StripMarks(v + "|T") == v
  {
    var a, b := v + "|T", v + "|";
    assert a[|a| - 1] == 'T' && a[..|a| - 1] == b;
    assert b[|b| - 1] == '|' && b[..|b| - 1] == v;
    assert v[|v| - 1] in v;
    assert StripMarks(v) == v;
    assert StripMarks(b) == v;
  }

  lemma {:induction false} SinkReads(r: nat, i: nat)
    ensures SinkValue(SourceRecord(r, i) + "|T") == r * 1000 + i
  {
    var v := Padded(r * 1000 + i, 5);
    RecordFields(Dec(r), Padded(i, 2), v, "|T");
    StripMark(v);
    ParseDigits(v);
    ValuePadded(r * 1000 + i, 5);
  }

  lemma {:induction false} SourceAt(r: nat, n: nat, i: nat)
    requires i < n
    ensures |SourceUpTo(r, n)| == n && SourceUpTo(r, n)[i] == SourceRecord(r, i)
  {
    if n > 1 { SourceAt(r, n - 1, if i < n - 1 then i else 0); }
  }

  /** Every second record, starting with the first. */
  function Evens(b: seq<string>): seq<string> {
    if b == [] then []
    else Evens(b[..|b| - 1]) + (if |b| % 2 == 1 then [b[|b| - 1]] else [])
  }

  lemma {:induction false} FilterEvens(b: seq<string>)
    requires forall i :: 0 <= i < |b| ==> (Keeps(b[i]) <==> i % 2 == 0)
    ensures FilterBatch(b) == Evens(b)
  {
    if b != [] { FilterEvens(b[..|b| - 1]); }
  }

  /** The sum of base, base + 2, ..., n terms. */
  function Spaced(n: nat, base: nat): nat {
    if n == 0 then 0 else Spaced(n - 1, base) + base + 2 * (n - 1)
  }

  lemma {:induction false} TransformSum(b: seq<string>, base: nat)
    requires forall i :: 0 <= i < |b| ==> SinkValue(b[i] + "|T") == base + i
    ensures |TransformBatch(Evens(b))| == (|b| + 1) / 2
    ensures SinkSum(TransformBatch(Evens(b))) == Spaced((|b| + 1) / 2, base)
  {
    if b != [] {
      var c, last := b[..|b| - 1], b[|b| - 1];
      TransformSum(c, base);
      if |b| % 2 == 1 {
        TransformStep(Evens(c), last, (|c| + 1) / 2, base);
        assert Evens(b) == Evens(c) + [last];
      } else {
        assert Evens(b) == Evens(c);
      }
    }
  }

  lemma {:induction false} TransformStep(e: seq<string>, last: string, n: nat, base: nat)
    requires |TransformBatch(e)| == n && SinkSum(TransformBatch(e)) == Spaced(n, base)
    requires SinkValue(last + "|T") == base + 2 * n
    ensures |TransformBatch(e + [last])| == n + 1 && SinkSum(TransformBatch(e + [last])) == Spaced(n + 1, base)
  {
    SumSnoc(e, last);
  }

  lemma {:induction false} SumSnoc(b: seq<string>, rec: string)
    ensures TransformBatch(b + [rec]) == TransformBatch(b) + [rec + "|T"]
    ensures SinkSum(TransformBatch(b + [rec])) == SinkSum(TransformBatch(b)) + SinkValue(rec + "|T")
  {
    assert (b + [rec])[..|b|] == b;
    var t := TransformBatch(b);
    assert (t + [rec + "|T"])[..|t|] == t;
  }

  lemma {:induction false} RoundItem(r: nat, b: seq<string>, i: nat)
    requires b == SourceBatch(r) && i < 20
    ensures |b| == 20 && (Keeps(b[i]) <==> i % 2 == 0) && SinkValue(b[i] + "|T") == 1000 * r + i
  {
    SourceAt(r, 20, i);
    SourceKept(r, i);
    SinkReads(r, i);
  }

  lemma {:induction false} RoundItems(r: nat, b: seq<string>)
    requires b == SourceBatch(r)
    ensures |b| == 20
    ensures forall i :: 0 <= i < |b| ==> (Keeps(b[i]) <==> i % 2 == 0)
    ensures forall i :: 0 <= i < |b| ==> SinkValue(b[i] + "|T") == 1000 * r + i
  {
    RoundItem(r, b, 0);
    forall i | 0 <= i < 20 ensures (Keeps(b[i]) <==> i % 2 == 0) && SinkValue(b[i] + "|T") == 1000 * r + i {
      RoundItem(r, b, i);
    }
  }

  lemma {:induction false} RoundSum(b: seq<string>, r: nat)
    requires |b| == 20
    requires forall i :: 0 <= i < |b| ==> (Keeps(b[i]) <==> i % 2 == 0)
    requires forall i :: 0 <= i < |b| ==> SinkValue(b[i] + "|T") == 1000 * r + i
    ensures var f := FilterBatch(b);
            |TransformBatch(f)| == 10 && SinkSum(TransformBatch(f)) == 10000 * r + 90
  {
    FilterEvens(b);
    TransformSum(b, 1000 * r);
    SpacedSum(10, 1000 * r);
  }

  lemma {:induction false} SpacedSum(n: nat, base: nat)
    ensures Spaced(n, base) == n * base + n * (n - 1)
  {
    if n > 0 {
      SpacedSum(n - 1, base);
      assert n * base == (n - 1) * base + base;
      assert n * (n - 1) == (n - 1) * (n - 2) + 2 * (n - 1);
    }
  }

  const STREAM_STAGES: seq<seq<string> -> seq<string>> :=
    [b => FilterBatch(b), b => TransformBatch(b), b => SinkBatch(b)]

  function StreamProgram(rounds: nat): Program<string> {
    Program(rounds, r => SourceBatch(r), STREAM_STAGES)
  }

  function RoundSummary(r: nat): string { "batch_count=10,value_sum=" + Dec(10000 * r + 90) }

  lemma {:induction false} DecTen()
    ensures Dec(10) == "10"
  {
    assert Dec(1) == "1" && DigitChar(0) == '0' && DigitChar(1) == '1';
  }

  lemma {:induction false} SummaryText(sum: nat)
    ensures Summary(10, sum) == "batch_count=10,value_sum=" + Dec(sum)
  {
    DecTen();
    assert "batch_count=" + "10" + ",value_sum=" == "batch_count=10,value_sum=";
  }

  lemma {:induction false} SinkText(b: seq<string>, r: nat)
    requires |b| == 10 && SinkSum(b) == 10000 * r + 90
    ensures SinkBatch(b) == [RoundSummary(r)]
  {
    SummaryText(10000 * r + 90);
  }

  lemma {:induction false} Unrolled(p: Program<string>, r: nat)
    requires p.stages == STREAM_STAGES
    ensures Batch(p, 3, r) == SinkBatch(TransformBatch(FilterBatch(p.source(r))))
  {
    assert Batch(p, 1, r) == FilterBatch(p.source(r));
    assert Batch(p, 2, r) == TransformBatch(Batch(p, 1, r));
  }

  lemma {:induction false} RoundBatch(rounds: nat, r: nat)
    ensures Batch(StreamProgram(rounds), 3, r) == [RoundSummary(r)]
  {
    var b := SourceBatch(r);
    Unrolled(StreamProgram(rounds), r);
    RoundItems(r, b);
    RoundSum(b, r);
    SinkText(TransformBatch(FilterBatch(b)), r);
  }

  function Summaries(n: nat): seq<string> {
    if n == 0 then [] else Summaries(n - 1) + [RoundSummary(n - 1)]
  }

  lemma {:induction false} CommittedSummaries(rounds: nat, n: nat)
    ensures Committed(StreamProgram(rounds), 3, n) == Summaries(n)
  {
    if n > 0 {
      CommittedSummaries(rounds, n - 1);
      RoundBatch(rounds, n - 1);
    }
  }

  /** Under every interleaving, the sink of a completed run reports count 10 and sum 10000 * r + 90 for each round r. */
  lemma {:induction false} SinkReports(rounds: nat, steps: seq<Step>)
    requires Run(StreamProgram(rounds), steps).Some? && Run(StreamProgram(rounds), steps).value.tick == rounds + 3
    ensures var s := Run(StreamProgram(rounds), steps).value;
            |s.stages| == 4 && s.stages[3].out == Summaries(rounds)
  {
    RunComplete(StreamProgram(rounds), steps, 3);
    CommittedSummaries(rounds, rounds);
  }
}
