/** The keyed-count reducer and its independence of grouping (Executor/host/src/shard.rs). */
module MergeSum {
  import opened Prelude
  import opened Text

  const U64: nat := 0x1_0000_0000_0000_0000

  // ---------------------------------------------------------------------------
  // Parsing one line
  // ---------------------------------------------------------------------------

  /** An unsigned 64-bit number: digits, optionally behind a plus sign. */
  function ParseU64(s: string): Option<nat> {
    var t := if s != [] && s[0] == '+' then s[1..] else s;
    if t == [] || !AllDigits(t) || Value(t) >= U64 then None else Some(Value(t))
  }

  /** The position of the last c in s. */
  function LastIndex(s: string, c: char): (r: Option<nat>)
    ensures r.Some? ==> r.value < |s| && s[r.value] == c && c !in s[r.value + 1..]
    ensures r.None? ==> c !in s
  {
    if s == [] then None
    else if s[|s| - 1] == c then Some(|s| - 1)
    else
      var r := LastIndex(s[..|s| - 1], c);
      assert r.Some? ==> s[r.value + 1..] == s[..|s| - 1][r.value + 1..] + [s[|s| - 1]];
      r
  }

  function LastSpace(s: string): (r: Option<nat>)
    ensures r.Some? ==> r.value < |s| && IsSpace(s[r.value])
  {
    if s == [] then None else if IsSpace(s[|s| - 1]) then Some(|s| - 1) else LastSpace(s[..|s| - 1])
  }

  datatype Entry = Entry(key: string, count: nat)

  /** The entry of a line cut at position i. */
  function CutAt(line: string, i: Option<nat>): Option<Entry>
    requires i.Some? ==> i.value < |line|
  {
    if i.None? then None
    else
      match ParseU64(Trim(line[i.value + 1..]))
      case None => None
      case Some(n) => Some(Entry(Trim(line[..i.value]), n))
  }

  const HEADER: string := "=== "

  predicate StartsWith(s: string, p: string) { p <= s }

  /** `key: N`, `key=N` or `key N`, cut at the last separator; headers and blank lines give nothing. */
  function ParseKeyNum(raw: string): Option<Entry> {
    var line := Trim(raw);
    if line == [] || StartsWith(line, HEADER) then None
    else
      var colon := CutAt(line, LastIndex(line, ':'));
      if colon.Some? then colon
      else
        var equals := CutAt(line, LastIndex(line, '='));
        if equals.Some? then equals else CutAt(line, LastSpace(line))
  }

  // ---------------------------------------------------------------------------
  // Printed lines parse back
  // ---------------------------------------------------------------------------

  /** A key some line can produce: trimmed, without newline, not the start of a header line. */
  predicate IsKey(k: string) {
    Trimmed(k) && '\n' !in k && !StartsWith(k, HEADER)
  }

  function Print(e: Entry): string { e.key + ": " + Dec(e.count) }

  lemma {:induction false} DigitsTrimmed(s: string)
    requires AllDigits(s) && s != []
    ensures Trimmed(s) && ':' !in s && '+' !in s
  {
    assert s[0] in s && s[|s| - 1] in s;
  }

  lemma {:induction false} ParseDec(n: nat)
    requires n < U64
    ensures ParseU64(Dec(n)) == Some(n)
  {
    DigitsTrimmed(Dec(n));
    assert Dec(n)[0] in Dec(n);
    ValueDec(n);
  }

  lemma {:induction false} TrimSpaceDec(n: nat)
    ensures Trim(" " + Dec(n)) == Dec(n)
  {
    DigitsTrimmed(Dec(n));
    assert (" " + Dec(n))[1..] == Dec(n);
    assert TrimStart(" " + Dec(n)) == Dec(n);
  }

  lemma {:induction false} PrintedTrimmed(e: Entry)
    requires Trimmed(e.key)
    ensures Trimmed(Print(e))
  {
    DigitsTrimmed(Dec(e.count));
  }

  lemma {:induction false} PrintedNoHeader(e: Entry)
    requires !StartsWith(e.key, HEADER)
    ensures !StartsWith(Print(e), HEADER)
  {
    var line := Print(e);
    if |e.key| >= 4 {
      assert line[..4] == e.key[..4];
    } else {
      assert line[|e.key|] == ':';
      assert HEADER[|e.key|] != ':';
    }
  }

  lemma {:induction false} LastColon(a: string, b: string)
    requires ':' !in b
    ensures LastIndex(a + ":" + b, ':') == Some(|a|)
  {
    var s := a + ":" + b;
    if b == [] {
      assert s[|s| - 1] == ':';
    } else {
      assert s[|s| - 1] == b[|b| - 1] && b[|b| - 1] in b;
      assert s[..|s| - 1] == a + ":" + b[..|b| - 1];
      LastColon(a, b[..|b| - 1]);
    }
  }

  /** A printed entry parses back to itself. */
  lemma {:induction false} PrintParse(e: Entry)
    requires IsKey(e.key) && e.count < U64
    ensures ParseKeyNum(Print(e)) == Some(e)
  {
    var line, tail := Print(e), " " + Dec(e.count);
    PrintedTrimmed(e);
    TrimNothing(line);
    PrintedNoHeader(e);
    DigitsTrimmed(Dec(e.count));
    assert line == e.key + ":" + tail;
    LastColon(e.key, tail);
    assert line[|e.key| + 1..] == tail && line[..|e.key|] == e.key;
    TrimSpaceDec(e.count);
    ParseDec(e.count);
    TrimNothing(e.key);
  }

  /** Every parsed entry has a key that prints safely. */
  lemma {:induction false} ParsedKey(raw: string, e: Entry)
    requires ParseKeyNum(raw) == Some(e) && '\n' !in raw
    ensures IsKey(e.key) && e.count < U64
  {
    var line := Trim(raw);
    TrimIsTrimmed(raw);
    TrimInside(raw);
    var i: nat :| i < |line| && e.key == Trim(line[..i]) && !StartsWith(line, HEADER) && e.count < U64;
    TrimIsTrimmed(line[..i]);
    TrimPrefix(line, i);
    assert StartsWith(e.key, HEADER) ==> HEADER <= line;
  }

  lemma {:induction false} TrimInside(s: string)
    ensures forall c :: c in Trim(s) ==> c in s
  {
    TrimStartDone(s);
    TrimEndDone(TrimStart(s));
  }

  /** Cutting a trimmed line and trimming the front part drops nothing at its start. */
  lemma {:induction false} TrimPrefix(line: string, i: nat)
    requires Trimmed(line) && i <= |line|
    ensures Trim(line[..i]) <= line
  {
    var k := line[..i];
    TrimEndDone(TrimStart(k));
    assert k != [] ==> k[0] == line[0];
    assert TrimStart(k) == k;
  }

  // ---------------------------------------------------------------------------
  // Lines of a partial
  // ---------------------------------------------------------------------------

  function FirstNewline(s: string): (i: nat)
    ensures i <= |s| && '\n' !in s[..i] && (i < |s| ==> s[i] == '\n')
  {
    if s == [] || s[0] == '\n' then 0
    else
      var i := FirstNewline(s[1..]);
      assert s[..i + 1] == [s[0]] + s[1..][..i];
      i + 1
  }

  function DropReturn(s: string): string {
    if s != [] && s[|s| - 1] == '\r' then s[..|s| - 1] else s
  }

  /** Lines without their newline; a carriage return before it goes too. */
  function Lines(s: string): seq<string> {
    if s == [] then []
    else
      var i := FirstNewline(s);
      if i == |s| then [s] else [DropReturn(s[..i])] + Lines(s[i + 1..])
  }

  lemma {:induction false} LinesClean(s: string)
    ensures forall l :: l in Lines(s) ==> '\n' !in l
  {
    var i := FirstNewline(s);
    assert s[..|s|] == s;
    if s != [] && i < |s| { LinesClean(s[i + 1..]); }
  }

  lemma {:induction false} NewlineAt(a: string, b: string)
    requires '\n' !in a
    ensures FirstNewline(a + "\n" + b) == |a|
  {
    var s := a + "\n" + b;
    if a != [] {
      assert s[0] == a[0] && a[0] in a;
      assert s[1..] == a[1..] + "\n" + b;
      NewlineAt(a[1..], b);
    }
  }

  lemma {:induction false} FirstLine(a: string, b: string)
    requires '\n' !in a && DropReturn(a) == a
    ensures Lines(a + "\n" + b) == [a] + Lines(b)
  {
    var s := a + "\n" + b;
    NewlineAt(a, b);
    assert s[..|a|] == a && s[|a| + 1..] == b;
  }

  // ---------------------------------------------------------------------------
  // Folding
  // ---------------------------------------------------------------------------

  type Counts = map<string, nat>

  function CountOf(m: Counts, k: string): nat { if k in m then m[k] else 0 }

  /** Adds one entry; counters are 64 bits wide. */
  function Bump(m: Counts, e: Entry): Counts {
    m[e.key := (CountOf(m, e.key) + e.count) % U64]
  }

  function FoldEntries(es: seq<Entry>): Counts {
    if es == [] then map[] else Bump(FoldEntries(es[..|es| - 1]), es[|es| - 1])
  }

  function ParseLine(line: string): seq<Entry> {
    match ParseKeyNum(line)
    case None => []
    case Some(e) => [e]
  }

  function ParseAll(lines: seq<string>): seq<Entry> {
    if lines == [] then [] else ParseAll(lines[..|lines| - 1]) + ParseLine(lines[|lines| - 1])
  }

  function Add(m: Counts, n: Counts): Counts {
    map k | k in m.Keys + n.Keys :: (CountOf(m, k) + CountOf(n, k)) % U64
  }

  predicate Bounded(m: Counts) { forall k :: k in m ==> m[k] < U64 }

  lemma {:induction false} ModAdd(x: nat, y: nat, c: nat)
    ensures ((x + y) % U64 + c) % U64 == (x + (y + c) % U64) % U64
  {
  }

  lemma {:induction false} AddBump(m: Counts, n: Counts, e: Entry)
    ensures Bump(Add(m, n), e) == Add(m, Bump(n, e))
  {
    var x, y := CountOf(m, e.key), CountOf(n, e.key);
    ModAdd(x, y, e.count);
    assert CountOf(Add(m, n), e.key) == (x + y) % U64;
    assert Bump(Add(m, n), e).Keys == Add(m, Bump(n, e)).Keys;
  }

  lemma {:induction false} FoldBounded(es: seq<Entry>)
    ensures Bounded(FoldEntries(es))
  {
    if es != [] { FoldBounded(es[..|es| - 1]); }
  }

  lemma {:induction false} AddNothing(m: Counts)
    requires Bounded(m)
    ensures Add(m, map[]) == m
  {
  }

  /** Folding is a homomorphism from concatenation to addition. */
  lemma {:induction false} FoldConcat(a: seq<Entry>, b: seq<Entry>)
    ensures FoldEntries(a + b) == Add(FoldEntries(a), FoldEntries(b))
  {
    if b == [] {
      assert a + b == a;
      FoldBounded(a);
      AddNothing(FoldEntries(a));
    } else {
      var c, last := b[..|b| - 1], b[|b| - 1];
      assert (a + b)[..|a + b| - 1] == a + c;
      FoldConcat(a, c);
      AddBump(FoldEntries(a), FoldEntries(c), last);
    }
  }

  predicate GoodEntries(es: seq<Entry>) {
    forall e :: e in es ==> IsKey(e.key) && e.count < U64
  }

  lemma {:induction false} ParsedLine(line: string)
    requires '\n' !in line
    ensures GoodEntries(ParseLine(line))
  {
    var e := ParseKeyNum(line);
    if e.Some? { ParsedKey(line, e.value); }
  }

  lemma {:induction false} ParsedGood(lines: seq<string>)
    requires forall l :: l in lines ==> '\n' !in l
    ensures GoodEntries(ParseAll(lines))
  {
    if lines != [] {
      ParsedGood(lines[..|lines| - 1]);
      ParsedLine(lines[|lines| - 1]);
    }
  }

  predicate AllKeys(m: Counts) { forall k :: k in m ==> IsKey(k) }

  lemma {:induction false} FoldKeys(es: seq<Entry>)
    requires GoodEntries(es)
    ensures AllKeys(FoldEntries(es))
  {
    if es != [] {
      FoldKeys(es[..|es| - 1]);
      assert es[|es| - 1] in es;
    }
  }

  /** The sum of the counts of key k. */
  function TotalOf(es: seq<Entry>, k: string): nat {
    if es == [] then 0
    else
      var e := es[|es| - 1];
      TotalOf(es[..|es| - 1], k) + (if e.key == k then e.count else 0)
  }

  /** Every key's counter is the sum of its counts, modulo 2^64. */
  lemma {:induction false} FoldTotals(es: seq<Entry>, k: string)
    ensures CountOf(FoldEntries(es), k) == TotalOf(es, k) % U64
  {
    if es != [] {
      FoldTotals(es[..|es| - 1], k);
      BumpTotal(FoldEntries(es[..|es| - 1]), es[|es| - 1], k, TotalOf(es[..|es| - 1], k));
    }
  }

  lemma {:induction false} BumpTotal(m: Counts, e: Entry, k: string, total: nat)
    requires CountOf(m, k) == total % U64
    ensures CountOf(Bump(m, e), k) == (total + (if e.key == k then e.count else 0)) % U64
  {
  }

  // ---------------------------------------------------------------------------
  // Printing in key order
  // ---------------------------------------------------------------------------

  /** Lexicographic order by code point. */
  predicate Leq(a: string, b: string) {
    if a == [] then true
    else if b == [] then false
    else if a[0] != b[0] then a[0] < b[0]
    else Leq(a[1..], b[1..])
  }

  lemma {:induction false} LeqTotal(a: string, b: string)
    ensures Leq(a, b) || Leq(b, a)
  {
    if a != [] && b != [] && a[0] == b[0] { LeqTotal(a[1..], b[1..]); }
  }

  lemma {:induction false} LeqTransitive(a: string, b: string, c: string)
    requires Leq(a, b) && Leq(b, c)
    ensures Leq(a, c)
  {
    if a != [] && a[0] == b[0] && b[0] == c[0] { LeqTransitive(a[1..], b[1..], c[1..]); }
  }

  lemma {:induction false} LeqAntisymmetric(a: string, b: string)
    requires Leq(a, b) && Leq(b, a)
    ensures a == b
  {
    if a != [] {
      LeqAntisymmetric(a[1..], b[1..]);
      assert a == [a[0]] + a[1..] && b == [b[0]] + b[1..];
    }
  }

  ghost predicate IsLeast(s: set<string>, k: string) {
    k in s && forall j :: j in s ==> Leq(k, j)
  }

  lemma {:induction false} LeastExists(s: set<string>)
    requires s != {}
    ensures exists k :: IsLeast(s, k)
  {
    var x :| x in s;
    LeqTotal(x, x);
    if s == {x} {
      assert IsLeast(s, x);
    } else {
      assert s - {x} != {};
      LeastExists(s - {x});
      var y :| IsLeast(s - {x}, y);
      LeqTotal(x, y);
      var k := if Leq(x, y) then x else y;
      forall j | j in s ensures Leq(k, j) {
        if j != x && k == x { LeqTransitive(x, y, j); }
      }
      assert IsLeast(s, k);
    }
  }

  /** The keys in ascending order. */
  ghost function SortedKeys(s: set<string>): (r: seq<string>)
    ensures forall k :: k in r <==> k in s
    ensures |r| == |s|
  {
    if s == {} then []
    else
      LeastExists(s);
      var k :| IsLeast(s, k);
      [k] + SortedKeys(s - {k})
  }

  function PrintAll(keys: seq<string>, m: Counts): string {
    if keys == [] then [] else Print(Entry(keys[0], CountOf(m, keys[0]))) + "\n" + PrintAll(keys[1..], m)
  }

  function PrintedLines(keys: seq<string>, m: Counts): seq<string> {
    if keys == [] then [] else [Print(Entry(keys[0], CountOf(m, keys[0])))] + PrintedLines(keys[1..], m)
  }

  lemma {:induction false} PrintedLine(e: Entry)
    requires '\n' !in e.key
    ensures '\n' !in Print(e) && DropReturn(Print(e)) == Print(e)
  {
    DigitsTrimmed(Dec(e.count));
    assert forall c :: c in Dec(e.count) ==> IsDigit(c);
    assert Print(e)[|Print(e)| - 1] == Dec(e.count)[|Dec(e.count)| - 1];
  }

  lemma {:induction false} LinesPrinted(keys: seq<string>, m: Counts)
    requires forall k :: k in keys ==> IsKey(k)
    ensures Lines(PrintAll(keys, m)) == PrintedLines(keys, m)
  {
    if keys != [] {
      var e := Entry(keys[0], CountOf(m, keys[0]));
      assert keys[0] in keys;
      PrintedLine(e);
      FirstLine(Print(e), PrintAll(keys[1..], m));
      LinesPrinted(keys[1..], m);
    }
  }

  function Entries(keys: seq<string>, m: Counts): seq<Entry> {
    if keys == [] then [] else [Entry(keys[0], CountOf(m, keys[0]))] + Entries(keys[1..], m)
  }

  lemma {:induction false} ParsePrinted(e: Entry)
    requires IsKey(e.key) && e.count < U64
    ensures ParseAll([Print(e)]) == [e]
  {
    PrintParse(e);
    ParseSingle(Print(e), [e]);
  }

  lemma {:induction false} ParseSingle(line: string, es: seq<Entry>)
    requires ParseLine(line) == es
    ensures ParseAll([line]) == es
  {
    assert [line][..0] == [];
    assert ParseAll([]) == [];
    assert [] + es == es;
  }

  lemma {:induction false} ParseConcat(a: seq<string>, b: seq<string>)
    ensures ParseAll(a + b) == ParseAll(a) + ParseAll(b)
  {
    if b == [] {
      assert a + b == a;
    } else {
      var c, last := b[..|b| - 1], b[|b| - 1];
      assert (a + b)[..|a + b| - 1] == a + c;
      ParseConcat(a, c);
      ConcatAssoc(ParseAll(a), ParseAll(c), ParseLine(last));
    }
  }

  lemma {:induction false} ConcatAssoc(a: seq<Entry>, b: seq<Entry>, c: seq<Entry>)
    ensures a + b + c == a + (b + c)
  {
  }

  lemma {:induction false} ParsePrintedLines(keys: seq<string>, m: Counts)
    requires forall k :: k in keys ==> IsKey(k) && CountOf(m, k) < U64
    ensures ParseAll(PrintedLines(keys, m)) == Entries(keys, m)
  {
    if keys != [] {
      var e := Entry(keys[0], CountOf(m, keys[0]));
      assert keys[0] in keys;
      ParsePrintedLines(keys[1..], m);
      ParseConcat([Print(e)], PrintedLines(keys[1..], m));
      ParsePrinted(e);
    }
  }

  function Restrict(m: Counts, keys: seq<string>): Counts {
    map k | k in keys :: CountOf(m, k)
  }

  lemma {:induction false} AddDisjoint(k: string, v: nat, m: Counts)
    requires k !in m && v < U64 && Bounded(m)
    ensures Add(map[k := v], m) == m[k := v]
  {
  }

  lemma {:induction false} RestrictHead(m: Counts, k: string, rest: seq<string>)
    ensures Restrict(m, [k] + rest) == Restrict(m, rest)[k := CountOf(m, k)]
  {
  }

  lemma {:induction false} FoldFirst(e: Entry, es: seq<Entry>, m: Counts)
    requires e.count < U64 && FoldEntries(es) == m && e.key !in m && Bounded(m)
    ensures FoldEntries([e] + es) == m[e.key := e.count]
  {
    FoldConcat([e], es);
    assert [e][..0] == [];
    assert FoldEntries([e]) == map[e.key := e.count];
    AddDisjoint(e.key, e.count, m);
  }

  /** Distinct keys fold back to their counts. */
  lemma {:induction false} FoldDistinct(keys: seq<string>, m: Counts)
    requires forall k :: k in keys ==> CountOf(m, k) < U64
    requires forall i, j :: 0 <= i < j < |keys| ==> keys[i] != keys[j]
    ensures FoldEntries(Entries(keys, m)) == Restrict(m, keys)
  {
    if keys != [] {
      var k, rest := keys[0], keys[1..];
      assert k in keys && k !in rest;
      FoldDistinct(rest, m);
      FoldFirst(Entry(k, CountOf(m, k)), Entries(rest, m), Restrict(m, rest));
      RestrictHead(m, k, rest);
      assert keys == [k] + rest;
    }
  }

  lemma {:induction false} SortedHead(s: set<string>) returns (k: string)
    requires s != {}
    ensures IsLeast(s, k) && SortedKeys(s) == [k] + SortedKeys(s - {k})
  {
    k := SortedKeys(s)[0];
  }

  ghost predicate Ascending(r: seq<string>) {
    forall i, j :: 0 <= i < j < |r| ==> r[i] != r[j] && Leq(r[i], r[j])
  }

  lemma {:induction false} AscendingHead(k: string, rest: seq<string>)
    requires Ascending(rest) && forall j :: j in rest ==> j != k && Leq(k, j)
    ensures Ascending([k] + rest)
  {
    var r := [k] + rest;
    forall i, j | 0 <= i < j < |r| ensures r[i] != r[j] && Leq(r[i], r[j]) {
      assert r[j] == rest[j - 1] && rest[j - 1] in rest;
    }
  }

  /** The output lists every key once, in ascending order. */
  lemma {:induction false} SortedAscending(s: set<string>)
    ensures Ascending(SortedKeys(s))
  {
    if s != {} {
      var k := SortedHead(s);
      SortedAscending(s - {k});
      AscendingHead(k, SortedKeys(s - {k}));
    }
  }

  // ---------------------------------------------------------------------------
  // merge_sum
  // ---------------------------------------------------------------------------

  function AllLines(partials: seq<string>): seq<string> {
    if partials == [] then [] else AllLines(partials[..|partials| - 1]) + Lines(partials[|partials| - 1])
  }

  function Fold(partials: seq<string>): Counts { FoldEntries(ParseAll(AllLines(partials))) }

  ghost function Merged(partials: seq<string>): string {
    var m := Fold(partials);
    PrintAll(SortedKeys(m.Keys), m)
  }

  lemma {:induction false} AllLinesClean(partials: seq<string>)
    ensures forall l :: l in AllLines(partials) ==> '\n' !in l
  {
    if partials != [] {
      AllLinesClean(partials[..|partials| - 1]);
      LinesClean(partials[|partials| - 1]);
    }
  }

  lemma {:induction false} MapParses(m: Counts)
    requires AllKeys(m) && Bounded(m)
    ensures FoldEntries(ParseAll(Lines(PrintAll(SortedKeys(m.Keys), m)))) == m
  {
    var keys := SortedKeys(m.Keys);
    LinesPrinted(keys, m);
    SortedAscending(m.Keys);
    ParsePrintedLines(keys, m);
    FoldDistinct(keys, m);
    assert Restrict(m, keys) == m;
  }

  /** The merged text parses back to the folded counts. */
  lemma {:induction false} MergedParses(partials: seq<string>)
    ensures FoldEntries(ParseAll(Lines(Merged(partials)))) == Fold(partials)
  {
    var es := ParseAll(AllLines(partials));
    AllLinesClean(partials);
    ParsedGood(AllLines(partials));
    FoldKeys(es);
    FoldBounded(es);
    MapParses(Fold(partials));
  }

  function Flat(groups: seq<seq<string>>): seq<string> {
    if groups == [] then [] else Flat(groups[..|groups| - 1]) + groups[|groups| - 1]
  }

  ghost function MergeEach(groups: seq<seq<string>>): seq<string> {
    if groups == [] then [] else MergeEach(groups[..|groups| - 1]) + [Merged(groups[|groups| - 1])]
  }

  lemma {:induction false} AllLinesConcat(a: seq<string>, b: seq<string>)
    ensures AllLines(a + b) == AllLines(a) + AllLines(b)
  {
    if b == [] {
      assert a + b == a;
    } else {
      assert (a + b)[..|a + b| - 1] == a + b[..|b| - 1];
      AllLinesConcat(a, b[..|b| - 1]);
    }
  }

  lemma {:induction false} FoldJoin(a: seq<string>, b: seq<string>)
    ensures Fold(a + b) == Add(Fold(a), Fold(b))
  {
    AllLinesConcat(a, b);
    ParseConcat(AllLines(a), AllLines(b));
    FoldConcat(ParseAll(AllLines(a)), ParseAll(AllLines(b)));
  }

  lemma {:induction false} FoldSingle(t: string)
    ensures Fold([t]) == FoldEntries(ParseAll(Lines(t)))
  {
    AllLinesSingle(t, Lines(t));
  }

  lemma {:induction false} AllLinesSingle(t: string, l: seq<string>)
    requires l == Lines(t)
    ensures AllLines([t]) == l
  {
    assert [t][..0] == [];
    assert AllLines([]) == [];
    assert [] + l == l;
  }

  lemma {:induction false} FoldGroups(groups: seq<seq<string>>)
    ensures Fold(MergeEach(groups)) == Fold(Flat(groups))
  {
    if groups != [] {
      var init, g := groups[..|groups| - 1], groups[|groups| - 1];
      FoldGroups(init);
      FoldJoin(MergeEach(init), [Merged(g)]);
      FoldSingle(Merged(g));
      MergedParses(g);
      FoldJoin(Flat(init), g);
    }
  }

  /** Merging the merges of any grouping of the partials equals merging all of them at once. */
  lemma {:induction false} GroupingIndependent(groups: seq<seq<string>>)
    ensures Merged(MergeEach(groups)) == Merged(Flat(groups))
  {
    FoldGroups(groups);
  }

  /** The order of the partials does not matter either. */
  lemma {:induction false} OrderIndependent(p: seq<string>, q: seq<string>)
    requires multiset(p) == multiset(q)
    ensures Merged(p) == Merged(q)
  {
    FoldPermuted(p, q);
  }

  lemma {:induction false} FoldPermuted(p: seq<string>, q: seq<string>)
    requires multiset(p) == multiset(q)
    ensures Fold(p) == Fold(q)
    decreases |p|
  {
    if p == [] {
      assert |multiset(q)| == 0;
    } else {
      var init, x := p[..|p| - 1], p[|p| - 1];
      assert p == init + [x];
      assert x in multiset(q);
      var i :| 0 <= i < |q| && q[i] == x;
      var a, b := q[..i], q[i + 1..];
      assert q == a + [x] + b;
      RemoveOne(p, q, init, a, b, x);
      FoldPermuted(init, a + b);
      FoldJoin(init, [x]);
      FoldSwap(a, [x], b);
    }
  }

  lemma {:induction false} RemoveOne(
    p: seq<string>, q: seq<string>, init: seq<string>, a: seq<string>, b: seq<string>, x: string)
    requires multiset(p) == multiset(q) && p == init + [x] && q == a + [x] + b
    ensures multiset(init) == multiset(a + b)
  {
    assert multiset(p) == multiset(init) + multiset{x};
    assert multiset(q) == multiset(a) + multiset{x} + multiset(b);
    assert multiset(p) - multiset{x} == multiset(init);
    assert multiset(q) - multiset{x} == multiset(a) + multiset(b);
  }

  /** Moving a block behind its neighbour keeps the fold. */
  lemma {:induction false} FoldSwap(a: seq<string>, x: seq<string>, b: seq<string>)
    ensures Fold(a + x + b) == Add(Fold(a + b), Fold(x))
  {
    FoldJoin(a + x, b);
    FoldJoin(a, x);
    FoldJoin(a, b);
    AddRotate(Fold(a), Fold(x), Fold(b));
  }

  lemma {:induction false} AddRotate(m: Counts, n: Counts, o: Counts)
    ensures Add(Add(m, n), o) == Add(Add(m, o), n)
  {
    var l, r := Add(Add(m, n), o), Add(Add(m, o), n);
    assert l.Keys == r.Keys;
    forall k | k in l ensures CountOf(l, k) == CountOf(r, k) {
      RotateAt(m, n, o, k);
    }
    CountsEqual(l, r);
  }

  lemma {:induction false} CountsEqual(m: Counts, n: Counts)
    requires m.Keys == n.Keys && forall k :: k in m ==> CountOf(m, k) == CountOf(n, k)
    ensures m == n
  {
    forall k | k in m ensures m[k] == n[k] {
      assert CountOf(m, k) == m[k] && CountOf(n, k) == n[k];
    }
  }

  lemma {:induction false} RotateAt(m: Counts, n: Counts, o: Counts, k: string)
    ensures CountOf(Add(Add(m, n), o), k) == CountOf(Add(Add(m, o), n), k)
  {
    var x, y, z := CountOf(m, k), CountOf(n, k), CountOf(o, k);
    calc {
      CountOf(Add(Add(m, n), o), k);
      { AddCount(Add(m, n), o, k); AddCount(m, n, k); }
      ((x + y) % U64 + z) % U64;
      { RotateMod(x, y, z); }
      ((x + z) % U64 + y) % U64;
      { AddCount(Add(m, o), n, k); AddCount(m, o, k); }
      CountOf(Add(Add(m, o), n), k);
    }
  }

  lemma {:induction false} AddCount(m: Counts, n: Counts, k: string)
    ensures CountOf(Add(m, n), k) == (CountOf(m, k) + CountOf(n, k)) % U64
  {
  }

  lemma {:induction false} RotateMod(x: nat, y: nat, z: nat)
    ensures ((x + y) % U64 + z) % U64 == ((x + z) % U64 + y) % U64
  {
  }

  // ---------------------------------------------------------------------------
  // The reducer as it runs
  // ---------------------------------------------------------------------------

  /** counts is the fold of the lines read so far. */
  ghost predicate Folded(counts: Counts, read: seq<string>) {
    forall u :: Key(FoldLock, u) ==> counts == FoldEntries(ParseAll(read))
  }

  method FoldKeyNums(partials: seq<string>) returns (counts: Counts)
    ensures counts == Fold(partials)
  {
    counts := map[];
    ghost var done: seq<string> := [];
    for i := 0 to |partials|
      invariant done == AllLines(partials[..i]) && Folded(counts, done)
    {
      counts := FoldPartial(counts, done, Lines(partials[i]));
      assert partials[..i + 1][..i] == partials[..i];
      done := done + Lines(partials[i]);
    }
    assert partials[..|partials|] == partials;
    assert Key(FoldLock, 0);
  }

  method FoldPartial(before: Counts, ghost read: seq<string>, lines: seq<string>) returns (counts: Counts)
    requires Folded(before, read)
    ensures Folded(counts, read + lines)
  {
    counts := before;
    ghost var done := read;
    for j := 0 to |lines|
      invariant done == read + lines[..j] && Folded(counts, done)
    {
      counts := CountLine(counts, lines[j], done);
      done := done + [lines[j]];
    }
    assert done == read + lines;
  }

  /** Adds a line's entry, if it has one. */
  method CountLine(before: Counts, line: string, ghost done: seq<string>) returns (counts: Counts)
    requires Folded(before, done)
    ensures Folded(counts, done + [line])
  {
    counts := before;
    var e := ParseKeyNum(line);
    FoldedStep(before, done, line, e);
    if e.Some? { counts := Bump(counts, e.value); }
  }

  lemma {:induction false} FoldedStep(before: Counts, done: seq<string>, line: string, e: Option<Entry>)
    requires Folded(before, done) && e == ParseKeyNum(line)
    ensures Folded(if e.Some? then Bump(before, e.value) else before, done + [line])
  {
    assert Key(FoldLock, 0);
    var es := ParseAll(done);
    ParseSnoc(done, line, e, es);
    if e.Some? { FoldSnoc(es, e.value); }
  }

  lemma {:induction false} FoldSnoc(es: seq<Entry>, e: Entry)
    ensures FoldEntries(es + [e]) == Bump(FoldEntries(es), e)
  {
    assert (es + [e])[..|es|] == es;
  }

  lemma {:induction false} ParseSnoc(lines: seq<string>, line: string, e: Option<Entry>, es: seq<Entry>)
    requires e == ParseKeyNum(line) && es == ParseAll(lines)
    ensures ParseAll(lines + [line]) == if e.Some? then es + [e.value] else es
  {
    assert (lines + [line])[..|lines|] == lines;
  }

  lemma {:induction false} PrintNext(s: set<string>, k: string, m: Counts)
    requires IsLeast(s, k)
    ensures PrintAll(SortedKeys(s), m) == Print(Entry(k, CountOf(m, k))) + "\n" + PrintAll(SortedKeys(s - {k}), m)
  {
    var first := SortedHead(s);
    LeqAntisymmetric(first, k);
    assert SortedKeys(s)[1..] == SortedKeys(s - {k});
  }

  method MergePartials(partials: seq<string>) returns (out: string)
    ensures out == Merged(partials)
  {
    var counts := FoldKeyNums(partials);
    out := PrintCounts(counts);
  }

  /** The first key in order. */
  method LeastKey(keys: set<string>) returns (k: string)
    requires keys != {}
    ensures IsLeast(keys, k)
  {
    LeastExists(keys);
    ghost var least :| IsLeast(keys, least);
    assert least in keys && forall j :: j in keys ==> Leq(least, j);
    k :| k in keys && forall j :: j in keys ==> Leq(k, j);
  }

  /** Prints the counters in ascending key order. */
  method PrintCounts(counts: Counts) returns (out: string)
    ensures out == PrintAll(SortedKeys(counts.Keys), counts)
  {
    out := [];
    var rest := counts.Keys;
    ghost var tail := PrintAll(SortedKeys(rest), counts);
    ghost var all := tail;
    while rest != {}
      invariant out + tail == all && tail == PrintAll(SortedKeys(rest), counts)
      decreases |rest|
    {
      out, rest, tail := PrintFirst(counts, rest, out, tail);
    }
    assert tail == [];
  }

  method PrintFirst(counts: Counts, keys: set<string>, before: string, ghost tail: string)
    returns (out: string, rest: set<string>, ghost tail': string)
    requires keys != {} && tail == PrintAll(SortedKeys(keys), counts)
    ensures out + tail' == before + tail && tail' == PrintAll(SortedKeys(rest), counts) && |rest| < |keys|
  {
    var k := LeastKey(keys);
    PrintNext(keys, k, counts);
    var line := Print(Entry(k, CountOf(counts, k)));
    rest := keys - {k};
    tail' := PrintAll(SortedKeys(rest), counts);
    out := before + (line + "\n");
  }
}
