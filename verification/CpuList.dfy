/**
  The kernel's CPU list grammar: parsing and printing (crates/sysboost-linux/src/topology.rs, 978-1044).
  Text is ASCII here.
 */
module CpuList {
  import opened Outcome
  import opened Bytes
  import opened Mutation

  /** The most CPUs a parsed list may name. */
  const CPUSET_CAPACITY_LIMIT: nat := 1_048_576

  const COMMA: byte := 0x2C
  const DASH: byte := 0x2D

  // ----- text

  predicate IsSpace(b: byte) { 0x09 <= b <= 0x0D || b == 0x20 }

  function TrimStart(s: seq<byte>): seq<byte> {
    if s != [] && IsSpace(s[0]) then TrimStart(s[1..]) else s
  }

  function TrimEnd(s: seq<byte>): seq<byte> {
    if s != [] && IsSpace(s[|s| - 1]) then TrimEnd(s[..|s| - 1]) else s
  }

  /** `str::trim`. */
  function Trim(s: seq<byte>): seq<byte> { TrimEnd(TrimStart(s)) }

  /** The position of the first occurrence of a byte, or the length. */
  function Find(s: seq<byte>, b: byte): (i: nat)
    ensures i <= |s|
    ensures i < |s| ==> s[i] == b
    ensures b !in s[..i]
  {
    if s == [] || s[0] == b then 0
    else
      var i := 1 + Find(s[1..], b);
      assert s[..i] == [s[0]] + s[1..][..i - 1];
      i
  }

  /** `str::split` at every occurrence of a byte. */
  function Split(s: seq<byte>, b: byte): (parts: seq<seq<byte>>)
    ensures parts != []
    decreases |s|
  {
    var i := Find(s, b);
    if i == |s| then [s] else [s[..i]] + Split(s[i + 1..], b)
  }

  function Join(parts: seq<seq<byte>>, b: byte): seq<byte>
    requires parts != []
  {
    if |parts| == 1 then parts[0] else parts[0] + [b] + Join(parts[1..], b)
  }

  // ----- numbers

  predicate IsDigit(b: byte) { 0x30 <= b <= 0x39 }

  predicate AllDigits(s: seq<byte>) { forall i :: 0 <= i < |s| ==> IsDigit(s[i]) }

  function Digits(n: nat): (s: seq<byte>)
    ensures s != [] && AllDigits(s)
  {
    if n < 10 then [0x30 + n] else Digits(n / 10) + [0x30 + n % 10]
  }

  function ValueOf(s: seq<byte>): nat
    requires AllDigits(s)
  {
    if s == [] then 0 else 10 * ValueOf(s[..|s| - 1]) + (s[|s| - 1] - 0x30)
  }

  /** `str::parse::<u32>`: an optional plus sign, then digits of a 32-bit value. */
  function ParseNumber(s: seq<byte>): Option<u32> {
    var digits := if |s| > 1 && s[0] == 0x2B then s[1..] else s;
    if digits == [] || !AllDigits(digits) || ValueOf(digits) > 0xFFFF_FFFF then None else Some(ValueOf(digits))
  }

  lemma {:induction false} DigitsValue(n: nat)
    ensures ValueOf(Digits(n)) == n
  {
    if n >= 10 {
      DigitsValue(n / 10);
      assert Digits(n)[..|Digits(n)| - 1] == Digits(n / 10);
    }
  }

  lemma {:induction false} NumberParses(n: u32)
    ensures ParseNumber(Digits(n)) == Some(n)
  {
    DigitsValue(n);
    assert IsDigit(Digits(n)[0]);
  }

  // ----- ranges

  datatype Run = Run(start: u32, end: u32)

  function Interval(start: int, end: int): (s: seq<int>)
    requires start <= end + 1
    ensures |s| == end - start + 1 && forall i :: 0 <= i < |s| ==> s[i] == start + i
  {
    seq(end - start + 1, i requires 0 <= i < end - start + 1 => start + i)
  }

  /** One comma-separated component, after `cpus` were read. */
  function ParsePart(cpus: seq<u32>, component: seq<byte>): Result<seq<u32>> {
    var part := Trim(component);
    if part == [] then Err(CapabilityError)
    else if Find(part, DASH) < |part| then
      var i := Find(part, DASH);
      var start := ParseNumber(part[..i]);
      var end := ParseNumber(part[i + 1..]);
      if start.None? || end.None? || start.value > end.value then Err(CapabilityError)
      else if |cpus| + (end.value - start.value + 1) > CPUSET_CAPACITY_LIMIT then Err(CapabilityError)
      else Ok(cpus + Interval(start.value, end.value))
    else
      var cpu := ParseNumber(part);
      if cpu.None? || |cpus| + 1 > CPUSET_CAPACITY_LIMIT then Err(CapabilityError) else Ok(cpus + [cpu.value])
  }

  /** Reads the components one after the other. */
  function ParseAll(
    parse: (seq<u32>, seq<byte>) -> Result<seq<u32>>, cpus: seq<u32>, parts: seq<seq<byte>>): Result<seq<u32>>
    decreases |parts|
  {
    if parts == [] then Ok(cpus)
    else
      var more :- parse(cpus, parts[0]);
      ParseAll(parse, more, parts[1..])
  }

  function ParseParts(cpus: seq<u32>, parts: seq<seq<byte>>): Result<seq<u32>> {
    ParseAll(ParsePart, cpus, parts)
  }

  /** `parse_cpu_list`. */
  function Parse(text: seq<byte>): Result<CpuSet> {
    var value := Trim(text);
    if value == [] then Err(CapabilityError)
    else
      var cpus :- ParseParts([], Split(value, COMMA));
      NewCpuSet(cpus)
  }

  function RenderRange(r: Run): seq<byte> {
    if r.start == r.end then Digits(r.start) else Digits(r.start) + [DASH] + Digits(r.end)
  }

  /** The maximal runs of a set whose first members so far are `start` to `end`. */
  function RunsFrom(start: u32, end: u32, rest: seq<u32>): (runs: seq<Run>)
    ensures runs != []
    decreases |rest|
  {
    if rest == [] then [Run(start, end)]
    else if rest[0] == (if end == 0xFFFF_FFFF then end else end + 1) then RunsFrom(start, rest[0], rest[1..])
    else [Run(start, end)] + RunsFrom(rest[0], rest[0], rest[1..])
  }

  function RenderRuns(runs: seq<Run>): (parts: seq<seq<byte>>)
    ensures |parts| == |runs| && forall i :: 0 <= i < |runs| ==> parts[i] == RenderRange(runs[i])
  {
    seq(|runs|, i requires 0 <= i < |runs| => RenderRange(runs[i]))
  }

  /** `render_cpu_set`. */
  function Render(cpus: CpuSet): seq<byte> {
    Join(RenderRuns(RunsFrom(cpus[0], cpus[0], cpus[1..])), COMMA)
  }

  // ----- the loops

  /** `parse_cpu_list`. */
  method ParseCpuList(text: seq<byte>) returns (r: Result<CpuSet>)
    ensures r == Parse(text)
  {
    var value := Trim(text);
    if value == [] {
      return Err(CapabilityError);
    }
    var parts := Split(value, COMMA);
    var cpus: seq<u32> := [];
    for i := 0 to |parts|
      invariant ParseAll(ParsePart, [], parts) == ParseAll(ParsePart, cpus, parts[i..])
    {
      assert parts[i..][0] == parts[i] && parts[i..][1..] == parts[i + 1..];
      cpus :- ParsePart(cpus, parts[i]);
    }
    r := NewCpuSet(cpus);
  }

  /** `render_cpu_set`. */
  method RenderCpuSet(cpus: CpuSet) returns (text: seq<byte>)
    ensures text == Render(cpus)
  {
    var ranges: seq<seq<byte>> := [];
    var start, end := cpus[0], cpus[0];
    ghost var done: seq<Run> := [];
    ghost var runs := RunsFrom(start, end, cpus[1..]);
    for i := 1 to |cpus|
      invariant ranges == RenderRuns(done)
      invariant runs == done + RunsFrom(start, end, cpus[i..])
    {
      assert cpus[i..][0] == cpus[i] && cpus[i..][1..] == cpus[i + 1..];
      if cpus[i] == (if end == 0xFFFF_FFFF then end else end + 1) {
        end := cpus[i];
      } else {
        assert done + ([Run(start, end)] + RunsFrom(cpus[i], cpus[i], cpus[i + 1..]))
            == done + [Run(start, end)] + RunsFrom(cpus[i], cpus[i], cpus[i + 1..]);
        ranges := ranges + [RenderRange(Run(start, end))];
        done := done + [Run(start, end)];
        start, end := cpus[i], cpus[i];
      }
    }
    ranges := ranges + [RenderRange(Run(start, end))];
    assert cpus[|cpus|..] == [];
    assert ranges == RenderRuns(runs);
    text := Join(ranges, COMMA);
  }

  // ----- the round trip

  /** The CPUs of a list of runs, one run after the other. */
  function Expand(runs: seq<Run>): seq<int>
    requires forall i :: 0 <= i < |runs| ==> runs[i].start <= runs[i].end
  {
    if runs == [] then [] else Interval(runs[0].start, runs[0].end) + Expand(runs[1..])
  }

  predicate Ordered(runs: seq<Run>) {
    forall i :: 0 <= i < |runs| ==> runs[i].start <= runs[i].end
  }

  /** The runs are maximal: a CPU is missing between one and the next. */
  predicate Apart(runs: seq<Run>) {
    forall i: nat, j: nat :: i + 1 == j < |runs| ==> runs[i].end + 1 < runs[j].start
  }

  lemma {:induction false} ApartFirst(first: Run, later: seq<Run>)
    requires Apart(later) && (later != [] ==> first.end + 1 < later[0].start)
    ensures Apart([first] + later)
  {
    forall i: nat, j: nat | i + 1 == j < |[first] + later|
      ensures ([first] + later)[i].end + 1 < ([first] + later)[j].start
    {
      assert i > 0 ==> later[i - 1].end + 1 < later[j - 1].start;
    }
  }

  lemma {:induction false} RunsCover(start: u32, end: u32, rest: seq<u32>)
    requires start <= end && StrictlyIncreasing([end] + rest)
    ensures Ordered(RunsFrom(start, end, rest)) && RunsFrom(start, end, rest)[0].start == start
    ensures Apart(RunsFrom(start, end, rest))
    ensures Expand(RunsFrom(start, end, rest)) == Interval(start, end) + rest
    decreases |rest|
  {
    if rest != [] {
      assert ([end] + rest)[0] == end && ([end] + rest)[1] == rest[0];
      forall i, j | 0 <= i < j < |rest| ensures rest[i] < rest[j] {
        assert ([end] + rest)[i + 1] < ([end] + rest)[j + 1];
      }
      assert [rest[0]] + rest[1..] == rest;
      if rest[0] == end + 1 {
        RunsCover(start, rest[0], rest[1..]);
        assert Interval(start, rest[0]) == Interval(start, end) + [rest[0]];
        assert Interval(start, rest[0]) + rest[1..] == Interval(start, end) + ([rest[0]] + rest[1..]);
      } else {
        RunsCover(rest[0], rest[0], rest[1..]);
        var later := RunsFrom(rest[0], rest[0], rest[1..]);
        assert ([Run(start, end)] + later)[1..] == later;
        assert Interval(rest[0], rest[0]) == [rest[0]];
        ApartFirst(Run(start, end), later);
      }
    }
  }

  lemma {:induction false} TrimmedAlready(s: seq<byte>)
    requires s != [] && !IsSpace(s[0]) && !IsSpace(s[|s| - 1])
    ensures Trim(s) == s
  {
  }

  /** A rendered run contains no space and no comma. */
  lemma {:induction false} RangeText(r: Run)
    ensures RenderRange(r) != [] && COMMA !in RenderRange(r)
    ensures forall i :: 0 <= i < |RenderRange(r)| ==> !IsSpace(RenderRange(r)[i])
  {
  }

  lemma {:induction false} FindDigits(s: seq<byte>, b: byte, rest: seq<byte>)
    requires AllDigits(s) && !IsDigit(b)
    ensures Find(s + [b] + rest, b) == |s| && Find(s, b) == |s|
  {
    if s != [] {
      assert (s + [b] + rest)[1..] == s[1..] + [b] + rest;
      FindDigits(s[1..], b, rest);
    }
  }

  /** Reading a rendered run adds its CPUs, if they still fit. */
  lemma {:induction false} RangeParses(cpus: seq<u32>, r: Run)
    requires r.start <= r.end
    ensures ParsePart(cpus, RenderRange(r)) == Added(cpus, Interval(r.start, r.end))
  {
    var text := RenderRange(r);
    RangeText(r);
    TrimmedAlready(text);
    NumberParses(r.start);
    NumberParses(r.end);
    if r.start == r.end {
      FindDigits(Digits(r.start), DASH, []);
      assert Interval(r.start, r.end) == [r.start];
    } else {
      FindDigits(Digits(r.start), DASH, Digits(r.end));
      assert text[..|Digits(r.start)|] == Digits(r.start);
      assert text[|Digits(r.start)| + 1..] == Digits(r.end);
    }
  }

  /** What reading a component does when it names the given CPUs. */
  function Added(cpus: seq<u32>, extra: seq<int>): Result<seq<int>> {
    if |cpus| + |extra| <= CPUSET_CAPACITY_LIMIT then Ok(cpus + extra) else Err(CapabilityError)
  }

  function Concat(lists: seq<seq<int>>): seq<int> {
    if lists == [] then [] else lists[0] + Concat(lists[1..])
  }

  /** Reading components that each name some CPUs adds all of them, if they fit. */
  lemma {:induction false} PartsParse(
    parse: (seq<u32>, seq<byte>) -> Result<seq<u32>>, cpus: seq<u32>, parts: seq<seq<byte>>, extras: seq<seq<u32>>)
    requires |parts| == |extras| && |cpus| <= CPUSET_CAPACITY_LIMIT
    requires forall seen, i :: 0 <= i < |parts| ==> parse(seen, parts[i]) == Added(seen, extras[i])
    ensures ParseAll(parse, cpus, parts) == Added(cpus, Concat(extras))
    decreases |parts|
  {
    if parts == [] {
      assert cpus + [] == cpus;
    } else {
      assert parse(cpus, parts[0]) == Added(cpus, extras[0]);
      if |cpus| + |extras[0]| <= CPUSET_CAPACITY_LIMIT {
        PartsParse(parse, cpus + extras[0], parts[1..], extras[1..]);
        assert cpus + extras[0] + Concat(extras[1..]) == cpus + Concat(extras);
      }
    }
  }

  lemma {:induction false} FindFirst(s: seq<byte>, b: byte, rest: seq<byte>)
    requires b !in s
    ensures Find(s + [b] + rest, b) == |s| && Find(s, b) == |s|
  {
    if s != [] {
      assert (s + [b] + rest)[1..] == s[1..] + [b] + rest;
      FindFirst(s[1..], b, rest);
    }
  }

  lemma {:induction false} SplitJoin(parts: seq<seq<byte>>, b: byte)
    requires parts != [] && forall i :: 0 <= i < |parts| ==> b !in parts[i]
    ensures Split(Join(parts, b), b) == parts
    decreases |parts|
  {
    if |parts| == 1 {
      FindFirst(parts[0], b, []);
    } else {
      var rest := Join(parts[1..], b);
      FindFirst(parts[0], b, rest);
      var whole := parts[0] + [b] + rest;
      assert whole[..|parts[0]|] == parts[0] && whole[|parts[0]| + 1..] == rest;
      SplitJoin(parts[1..], b);
    }
  }

  /** Joined parts begin and end with bytes of parts. */
  lemma {:induction false} JoinEnds(parts: seq<seq<byte>>, b: byte)
    requires parts != [] && forall i :: 0 <= i < |parts| ==> parts[i] != []
    ensures var s := Join(parts, b);
      s != [] && s[0] == parts[0][0] && s[|s| - 1] == parts[|parts| - 1][|parts[|parts| - 1]| - 1]
    decreases |parts|
  {
    if |parts| > 1 {
      JoinEnds(parts[1..], b);
    }
  }

  /** The text of some runs is cut into exactly their components. */
  lemma {:induction false} RunsText(runs: seq<Run>)
    requires runs != []
    ensures var text := Join(RenderRuns(runs), COMMA);
            text != [] && Trim(text) == text && Split(text, COMMA) == RenderRuns(runs)
  {
    var parts := RenderRuns(runs);
    forall i | 0 <= i < |parts|
      ensures parts[i] != [] && COMMA !in parts[i] && forall j :: 0 <= j < |parts[i]| ==> !IsSpace(parts[i][j])
    {
      RangeText(runs[i]);
    }
    JoinEnds(parts, COMMA);
    TrimmedAlready(Join(parts, COMMA));
    SplitJoin(parts, COMMA);
  }

  function Intervals(runs: seq<Run>): (lists: seq<seq<u32>>)
    requires Ordered(runs)
    ensures |lists| == |runs| && forall i :: 0 <= i < |runs| ==> lists[i] == Interval(runs[i].start, runs[i].end)
  {
    seq(|runs|, i requires 0 <= i < |runs| => Interval(runs[i].start, runs[i].end))
  }

  lemma {:induction false} ExpandIsConcat(runs: seq<Run>)
    requires Ordered(runs)
    ensures Expand(runs) == Concat(Intervals(runs))
    decreases |runs|
  {
    if runs != [] {
      ExpandIsConcat(runs[1..]);
      assert Intervals(runs)[1..] == Intervals(runs[1..]);
    }
  }

  lemma {:induction false} PartsOfRuns(runs: seq<Run>)
    requires Ordered(runs)
    ensures ParseParts([], RenderRuns(runs)) == Added([], Expand(runs))
  {
    forall seen, i | 0 <= i < |runs|
      ensures ParsePart(seen, RenderRuns(runs)[i]) == Added(seen, Intervals(runs)[i])
    {
      RangeParses(seen, runs[i]);
    }
    PartsParse(ParsePart, [], RenderRuns(runs), Intervals(runs));
    ExpandIsConcat(runs);
  }

  lemma {:induction false} ParseOfRuns(runs: seq<Run>, cpus: CpuSet)
    requires runs != [] && Ordered(runs) && Expand(runs) == cpus
    ensures Parse(Join(RenderRuns(runs), COMMA))
            == if |cpus| <= CPUSET_CAPACITY_LIMIT then Ok(cpus) else Err(CapabilityError)
  {
    RunsText(runs);
    PartsOfRuns(runs);
    assert [] + Expand(runs) == cpus;
    SortedIsFixed(cpus);
  }

  /** Printing a canonical CPU set and parsing the text gives the set back exactly when it is within the bound. */
  lemma {:induction false} ListRoundTrip(cpus: CpuSet)
    ensures Parse(Render(cpus)) == if |cpus| <= CPUSET_CAPACITY_LIMIT then Ok(cpus) else Err(CapabilityError)
  {
    var runs := RunsFrom(cpus[0], cpus[0], cpus[1..]);
    assert [cpus[0]] + cpus[1..] == cpus;
    RunsCover(cpus[0], cpus[0], cpus[1..]);
    assert Interval(cpus[0], cpus[0]) == [cpus[0]];
    ParseOfRuns(runs, cpus);
  }

  // ----- what a list says

  predicate Blank(s: seq<byte>) { forall i :: 0 <= i < |s| ==> IsSpace(s[i]) }

  /** `core` is `s` without the space around it. */
  ghost predicate Trimmed(s: seq<byte>, core: seq<byte>) {
    && (core != [] ==> !IsSpace(core[0]) && !IsSpace(core[|core| - 1]))
    && exists a: seq<byte>, b: seq<byte> :: s == a + core + b && Blank(a) && Blank(b)
  }

  lemma {:induction false} TrimStartMeans(s: seq<byte>) returns (a: seq<byte>)
    ensures s == a + TrimStart(s) && Blank(a)
    ensures TrimStart(s) != [] ==> !IsSpace(TrimStart(s)[0])
  {
    a := [];
    if s != [] && IsSpace(s[0]) {
      var more := TrimStartMeans(s[1..]);
      a := [s[0]] + more;
    }
  }

  lemma {:induction false} TrimEndMeans(s: seq<byte>) returns (b: seq<byte>)
    ensures s == TrimEnd(s) + b && Blank(b)
    ensures TrimEnd(s) != [] ==> TrimEnd(s)[0] == s[0] && !IsSpace(TrimEnd(s)[|TrimEnd(s)| - 1])
  {
    b := [];
    if s != [] && IsSpace(s[|s| - 1]) {
      var more := TrimEndMeans(s[..|s| - 1]);
      b := more + [s[|s| - 1]];
      assert s == s[..|s| - 1] + [s[|s| - 1]];
    }
  }

  lemma {:induction false} TrimMeans(s: seq<byte>)
    ensures Trimmed(s, Trim(s))
  {
    var a := TrimStartMeans(s);
    var b := TrimEndMeans(TrimStart(s));
    assert s == a + Trim(s) + b;
  }

  /** A 32-bit decimal number, with or without a plus sign. */
  ghost predicate Numeral(s: seq<byte>, n: u32) {
    var digits := if s != [] && s[0] == 0x2B then s[1..] else s;
    digits != [] && AllDigits(digits) && ValueOf(digits) == n
  }

  lemma {:induction false} NumberMeans(s: seq<byte>, n: u32)
    ensures ParseNumber(s) == Some(n) <==> Numeral(s, n)
  {
  }

  /** A component is one number, or two numbers in order with a dash between. */
  ghost predicate Names(component: seq<byte>, run: Run) {
    var core := Trim(component);
    || (DASH !in core && Numeral(core, run.start) && run.end == run.start)
    || (run.start <= run.end && exists first: seq<byte>, second: seq<byte> ::
          && core == first + [DASH] + second && DASH !in first
          && Numeral(first, run.start) && Numeral(second, run.end))
  }

  /** The value is a list of components, between commas, naming these runs. */
  ghost predicate Lists(value: seq<byte>, runs: seq<Run>) {
    var parts := Split(value, COMMA);
    |parts| == |runs| && forall i :: 0 <= i < |parts| ==> Names(parts[i], runs[i])
  }

  /** Splitting undoes joining, and there is no other list of parts without the separator. */
  lemma {:induction false} SplitMeans(s: seq<byte>, b: byte, parts: seq<seq<byte>>)
    ensures parts == Split(s, b) <==>
            parts != [] && Join(parts, b) == s && forall i :: 0 <= i < |parts| ==> b !in parts[i]
  {
    if parts != [] && Join(parts, b) == s && forall i :: 0 <= i < |parts| ==> b !in parts[i] {
      SplitJoin(parts, b);
    }
    JoinSplit(s, b);
  }

  lemma {:induction false} JoinSplit(s: seq<byte>, b: byte)
    ensures Join(Split(s, b), b) == s
    ensures forall i :: 0 <= i < |Split(s, b)| ==> b !in Split(s, b)[i]
    decreases |s|
  {
    var i := Find(s, b);
    assert s[..|s|] == s;
    if i < |s| {
      JoinSplit(s[i + 1..], b);
      assert ([s[..i]] + Split(s[i + 1..], b))[1..] == Split(s[i + 1..], b);
      assert s == s[..i] + [b] + s[i + 1..];
    }
  }

  /** What reading the two ends of a range, or the one number, makes of a component. */
  function ReadRun(cpus: seq<u32>, start: Option<u32>, end: Option<u32>): Result<seq<u32>> {
    if start.None? || end.None? || start.value > end.value then Err(CapabilityError)
    else Added(cpus, Interval(start.value, end.value))
  }

  lemma {:induction false} PartIsRange(cpus: seq<u32>, component: seq<byte>, first: seq<byte>, second: seq<byte>)
    requires Trim(component) == first + [DASH] + second && DASH !in first
    ensures ParsePart(cpus, component) == ReadRun(cpus, ParseNumber(first), ParseNumber(second))
  {
    var core := Trim(component);
    FindFirst(first, DASH, second);
    assert core[..|first|] == first && core[|first| + 1..] == second;
  }

  lemma {:induction false} PartIsNumber(cpus: seq<u32>, component: seq<byte>)
    requires DASH !in Trim(component)
    ensures ParsePart(cpus, component) == ReadRun(cpus, ParseNumber(Trim(component)), ParseNumber(Trim(component)))
  {
    var core := Trim(component);
    var cpu := ParseNumber(core);
    if cpu.Some? {
      assert Interval(cpu.value, cpu.value) == [cpu.value];
    }
  }

  /** A component is read as the run it names. */
  lemma {:induction false} NamedParses(cpus: seq<u32>, component: seq<byte>, run: Run)
    requires Names(component, run)
    ensures run.start <= run.end
    ensures ParsePart(cpus, component) == Added(cpus, Interval(run.start, run.end))
  {
    var core := Trim(component);
    if DASH !in core {
      PartIsNumber(cpus, component);
      NumberMeans(core, run.start);
    } else {
      var first, second :| && core == first + [DASH] + second && DASH !in first
                           && Numeral(first, run.start) && Numeral(second, run.end);
      PartIsRange(cpus, component, first, second);
      NumberMeans(first, run.start);
      NumberMeans(second, run.end);
    }
  }

  lemma {:induction false} CutAtDash(core: seq<byte>) returns (first: seq<byte>, second: seq<byte>)
    requires DASH in core
    ensures core == first + [DASH] + second && DASH !in first
  {
    var i := Find(core, DASH);
    assert core[..|core|] == core;
    first, second := core[..i], core[i + 1..];
  }

  /** A component that is read names a run. */
  lemma {:induction false} ParsedNames(cpus: seq<u32>, component: seq<byte>) returns (run: Run)
    requires ParsePart(cpus, component).Ok?
    ensures Names(component, run)
  {
    var core := Trim(component);
    if DASH in core {
      var first, second := CutAtDash(core);
      PartIsRange(cpus, component, first, second);
      run := Run(ParseNumber(first).value, ParseNumber(second).value);
      NumberMeans(first, run.start);
      NumberMeans(second, run.end);
    } else {
      PartIsNumber(cpus, component);
      run := Run(ParseNumber(core).value, ParseNumber(core).value);
      NumberMeans(core, run.start);
    }
  }

  lemma {:induction false} ReadRefusal(cpus: seq<u32>, parts: seq<seq<byte>>)
    ensures ParseParts(cpus, parts).Err? ==> ParseParts(cpus, parts).code == CapabilityError
    decreases |parts|
  {
    if parts != [] && ParsePart(cpus, parts[0]).Ok? {
      ReadRefusal(ParsePart(cpus, parts[0]).value, parts[1..]);
    }
  }

  lemma {:induction false} ReadAllNames(cpus: seq<u32>, parts: seq<seq<byte>>) returns (runs: seq<Run>)
    requires ParseParts(cpus, parts).Ok?
    ensures |runs| == |parts| && forall i :: 0 <= i < |parts| ==> Names(parts[i], runs[i])
    decreases |parts|
  {
    runs := [];
    if parts != [] {
      var first := ParsedNames(cpus, parts[0]);
      var others := ReadAllNames(ParsePart(cpus, parts[0]).value, parts[1..]);
      runs := [first] + others;
    }
  }

  lemma {:induction false} NamedAllParse(parts: seq<seq<byte>>, runs: seq<Run>)
    requires |parts| == |runs| && forall i :: 0 <= i < |parts| ==> Names(parts[i], runs[i])
    ensures Ordered(runs) && ParseParts([], parts) == Added([], Expand(runs))
  {
    forall i | 0 <= i < |parts|
      ensures runs[i].start <= runs[i].end
    {
      NamedParses([], parts[i], runs[i]);
    }
    forall seen: seq<u32>, i | 0 <= i < |parts|
      ensures ParsePart(seen, parts[i]) == Added(seen, Intervals(runs)[i])
    {
      NamedParses(seen, parts[i], runs[i]);
    }
    PartsParse(ParsePart, [], parts, Intervals(runs));
    ExpandIsConcat(runs);
  }

  lemma {:induction false} ExpandMembers(runs: seq<Run>, n: int)
    requires Ordered(runs)
    ensures n in Expand(runs) <==> exists i :: 0 <= i < |runs| && runs[i].start <= n <= runs[i].end
    decreases |runs|
  {
    if runs != [] {
      ExpandMembers(runs[1..], n);
      var here := Interval(runs[0].start, runs[0].end);
      if runs[0].start <= n <= runs[0].end {
        assert here[n - runs[0].start] == n;
      }
      if i :| 0 <= i < |runs| && runs[i].start <= n <= runs[i].end {
        assert i > 0 ==> runs[1..][i - 1] == runs[i];
      }
      if i :| 0 <= i < |runs[1..]| && runs[1..][i].start <= n <= runs[1..][i].end {
        assert runs[i + 1] == runs[1..][i];
      }
    }
  }

  /** The text of a list of runs within the bound is accepted, and says exactly the CPUs of the runs. */
  lemma {:induction false} ListedParses(text: seq<byte>, runs: seq<Run>)
    requires Lists(Trim(text), runs)
    ensures Ordered(runs)
    ensures Parse(text).Ok? <==> |Expand(runs)| <= 1_048_576
    ensures Parse(text).Ok? ==> forall n :: n in Parse(text).value <==>
              exists i :: 0 <= i < |runs| && runs[i].start <= n <= runs[i].end
    ensures Parse(text).Err? ==> Parse(text).code == CapabilityError
  {
    NamedAllParse(Split(Trim(text), COMMA), runs);
    assert [] + Expand(runs) == Expand(runs);
    forall n
      ensures n in Expand(runs) <==> exists i :: 0 <= i < |runs| && runs[i].start <= n <= runs[i].end
    {
      ExpandMembers(runs, n);
    }
  }

  /** Every other text is refused. */
  lemma {:induction false} OnlyListsParse(text: seq<byte>)
    ensures Parse(text).Ok? ==> exists runs: seq<Run> :: Lists(Trim(text), runs)
    ensures Parse(text).Err? ==> Parse(text).code == CapabilityError
  {
    ReadRefusal([], Split(Trim(text), COMMA));
    if Trim(text) != [] && ParseParts([], Split(Trim(text), COMMA)).Ok? {
      var runs := ReadAllNames([], Split(Trim(text), COMMA));
      assert Lists(Trim(text), runs);
      ListedParses(text, runs);
    }
  }
}
