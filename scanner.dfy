/** `inspect_file` (codedust.py): the scan of a file's lines with the `CodeDust` markers
    that switch the inspection off and on or skip one line, and the trailing reminder
    when the file ends with the inspection switched off. Reading the file is not part of
    the model: the scan starts from the list that `readlines()` returns. */
module Scanner {
  import opened Wrappers
  import opened Text
  import opened Rules
  import opened Inspector

  const OffMarker := " CodeDust: OFF\n"
  const OnMarker := " CodeDust: ON\n"
  const SkipMarker := " CodeDust: SKIP\n"
  const ReenableMessage := "CodeDust should be re-enabled afterwards."

  predicate IsOff(line: string) { Contains(line, OffMarker) }
  predicate IsOn(line: string) { Contains(line, OnMarker) }
  predicate IsSkip(line: string) { Contains(line, SkipMarker) }

  /** What `inspect_file` yields: a triple `(line_number, code, message)` for an issue,
      or, once at the end, the pair `(line_number, message)` that asks for the
      inspection to be switched on again after the `OFF` marker on that line. */
  datatype Report = Found(line: nat, code: string, message: string) | Reenable(line: nat, message: string)

  /** `code_dust_enabled` and `code_dust_disabled_in_line`. */
  datatype ScanState = ScanState(enabled: bool, disabledIn: nat)

  const Start := ScanState(true, 0)

  /** The markers of the line numbered `lineNumber`: `OFF` first, then `ON`, so a line
      carrying both leaves the inspection on. */
  function Step(st: ScanState, lineNumber: nat, line: string): ScanState {
    var afterOff := if IsOff(line) then ScanState(false, lineNumber) else st;
    if IsOn(line) then ScanState(true, 0) else afterOff
  }

  /** The line is not inspected: it carries `SKIP`, or the inspection is off once its
      markers have been read. */
  predicate Silenced(st: ScanState, line: string) {
    IsSkip(line) || !st.enabled
  }

  /** The neighbours `zip` pairs with line `i` (counting from 0): the raw lines of the
      file, whether or not they are inspected themselves. */
  function Prev(lines: seq<string>, i: nat): Option<string> {
    if 0 < i <= |lines| then Some(lines[i - 1]) else None
  }

  function Next(lines: seq<string>, i: nat): Option<string> {
    if i + 1 < |lines| then Some(lines[i + 1]) else None
  }

  /** The triples of the issues found on the line numbered `lineNumber`. */
  function Tag(lineNumber: nat, issues: seq<Issue>): (r: seq<Report>)
    ensures |r| == |issues|
    ensures forall k :: 0 <= k < |r| ==> r[k] == Found(lineNumber, issues[k].code, issues[k].message)
  {
    seq(|issues|, k requires 0 <= k < |issues| => Found(lineNumber, issues[k].code, issues[k].message))
  }

  /** The reports yielded before those of `out`. */
  function Prepend(reports: seq<Report>, out: Outcome<Report>): Outcome<Report> {
    match out
    case Completed(items) => Completed(reports + items)
    case Raised(items) => Raised(reports + items)
  }

  /** The reminder yielded after the last line. */
  function Trailer(st: ScanState): seq<Report> {
    if st.disabledIn > 0 then [Reenable(st.disabledIn, ReenableMessage)] else []
  }

  /** `inspect_line` with its arguments `prev`, `curr` and `next`; the scan is stated for
      any such function and used with `inspect_line` under one rule set. */
  type LineInspector = (Option<string>, string, Option<string>) -> Outcome<Issue>

  function InspectorOf(rules: RuleSet): LineInspector {
    (prev: Option<string>, curr: string, next: Option<string>) => InspectLine(prev, curr, next, rules)
  }

  /** What the scan yields from line `i` (counting from 0) on, in state `st`. An
      exception raised while a line is inspected ends the scan after the issues that line
      yielded. */
  function ScanFrom(inspect: LineInspector, lines: seq<string>, i: nat, st: ScanState): Outcome<Report>
    requires i <= |lines|
    decreases |lines| - i
  {
    if i == |lines| then Completed(Trailer(st))
    else
      var st' := Step(st, i + 1, lines[i]);
      if Silenced(st', lines[i]) then ScanFrom(inspect, lines, i + 1, st')
      else
        var out := inspect(Prev(lines, i), lines[i], Next(lines, i));
        if out.Raised? then Raised(Tag(i + 1, out.items))
        else Prepend(Tag(i + 1, out.items), ScanFrom(inspect, lines, i + 1, st'))
  }

  function Scan(inspect: LineInspector, lines: seq<string>): Outcome<Report> {
    ScanFrom(inspect, lines, 0, Start)
  }

  lemma PrependNothing(out: Outcome<Report>)
    ensures Prepend([], out) == out
  {
    match out
    case Completed(items) => assert [] + items == items;
    case Raised(items) => assert [] + items == items;
  }

  lemma PrependPrepend(a: seq<Report>, b: seq<Report>, out: Outcome<Report>)
    ensures Prepend(a, Prepend(b, out)) == Prepend(a + b, out)
  {
    match out
    case Completed(items) => assert a + (b + items) == (a + b) + items;
    case Raised(items) => assert a + (b + items) == (a + b) + items;
  }

  /** `inspect_file(file_path, rules)` on the lines the file holds. */
  method InspectFile(lines: seq<string>, rules: RuleSet) returns (out: Outcome<Report>)
    ensures out == Scan(InspectorOf(rules), lines)
  {
    var reports: seq<Report> := [];
    var lineNumber := 0;
    var enabled := true;
    var disabledIn := 0;
    PrependNothing(Scan(InspectorOf(rules), lines));
    while lineNumber < |lines|
      invariant lineNumber <= |lines|
      invariant ScanState(enabled, disabledIn) == StateAt(lines, lineNumber)
      invariant Prepend(reports, ScanFrom(InspectorOf(rules), lines, lineNumber, ScanState(enabled, disabledIn))) ==
                Scan(InspectorOf(rules), lines)
    {
      ghost var before := ScanState(enabled, disabledIn);
      var pl := if lineNumber > 0 then Some(lines[lineNumber - 1]) else None;
      var cl := lines[lineNumber];
      var nl := if lineNumber + 1 < |lines| then Some(lines[lineNumber + 1]) else None;
      assert pl == Prev(lines, lineNumber) && nl == Next(lines, lineNumber);
      lineNumber := lineNumber + 1;
      assert StateAt(lines, lineNumber) == Step(before, lineNumber, cl);
      if IsOff(cl) {
        enabled := false;
        disabledIn := lineNumber;
      }
      if IsOn(cl) {
        enabled := true;
        disabledIn := 0;
      }
      assert ScanState(enabled, disabledIn) == Step(before, lineNumber, cl);
      if IsSkip(cl) || !enabled {
        continue;
      }
      var found := InspectLine(pl, cl, nl, rules);
      assert found == InspectorOf(rules)(pl, cl, nl);
      PrependPrepend(reports, Tag(lineNumber, found.items),
                     ScanFrom(InspectorOf(rules), lines, lineNumber, ScanState(enabled, disabledIn)));
      reports := reports + Tag(lineNumber, found.items);
      if found.Raised? {
        return Raised(reports);
      }
    }
    if disabledIn > 0 {
      reports := reports + [Reenable(disabledIn, ReenableMessage)];
    }
    return Completed(reports);
  }

  // The markers

  /** The state once the first `n` lines have been read. */
  function StateAt(lines: seq<string>, n: nat): ScanState
    requires n <= |lines|
    decreases n
  {
    if n == 0 then Start else Step(StateAt(lines, n - 1), n, lines[n - 1])
  }

  /** Line `i` (counting from 0) is inspected. */
  predicate Inspected(lines: seq<string>, i: nat)
    requires i < |lines|
  {
    !Silenced(StateAt(lines, i + 1), lines[i])
  }

  predicate OffOnly(line: string) { IsOff(line) && !IsOn(line) }

  predicate Unmarked(line: string) { !IsOff(line) && !IsOn(line) }

  /** Line `j`, among the first `n`, has `OFF` and not `ON`, and no later line among
      them has `ON`. */
  predicate PendingFrom(lines: seq<string>, j: nat, n: nat)
    requires n <= |lines|
  {
    j < n && OffOnly(lines[j]) && forall k :: j < k < n ==> !IsOn(lines[k])
  }

  /** Some `OFF` among the first `n` lines has not been followed by an `ON`. */
  predicate PendingOff(lines: seq<string>, n: nat)
    requires n <= |lines|
  {
    exists j :: 0 <= j < n && PendingFrom(lines, j, n)
  }

  lemma PendingAfterOn(lines: seq<string>, n: nat)
    requires 0 < n <= |lines| && IsOn(lines[n - 1])
    ensures !PendingOff(lines, n)
  {
    forall j | 0 <= j < n
      ensures !PendingFrom(lines, j, n)
    {
      assert IsOn(lines[n - 1]);
    }
  }

  lemma PendingAfterOff(lines: seq<string>, n: nat)
    requires 0 < n <= |lines| && OffOnly(lines[n - 1])
    ensures PendingOff(lines, n)
  {
    assert PendingFrom(lines, n - 1, n);
  }

  lemma PendingAfterUnmarked(lines: seq<string>, n: nat)
    requires 0 < n <= |lines| && Unmarked(lines[n - 1])
    ensures PendingOff(lines, n) <==> PendingOff(lines, n - 1)
  {
    if PendingOff(lines, n) {
      var j :| 0 <= j < n && PendingFrom(lines, j, n);
      assert OffOnly(lines[j]) && j != n - 1;
      assert PendingFrom(lines, j, n - 1);
    }
    if PendingOff(lines, n - 1) {
      var j :| 0 <= j < n - 1 && PendingFrom(lines, j, n - 1);
      assert !IsOn(lines[n - 1]);
      assert PendingFrom(lines, j, n);
    }
  }

  /** The inspection is off exactly when an `OFF` is pending; the line of the pending
      `OFF` is remembered, and no line after it carries a marker. */
  lemma {:induction false} StateAtMarkers(lines: seq<string>, n: nat)
    requires n <= |lines|
    ensures StateAt(lines, n).enabled <==> !PendingOff(lines, n)
    ensures StateAt(lines, n).enabled <==> StateAt(lines, n).disabledIn == 0
    ensures var d := StateAt(lines, n).disabledIn;
            d > 0 ==> d <= n && OffOnly(lines[d - 1]) && forall k :: d <= k < n ==> Unmarked(lines[k])
    decreases n
  {
    if n > 0 {
      StateAtMarkers(lines, n - 1);
      var line := lines[n - 1];
      if IsOn(line) {
        PendingAfterOn(lines, n);
      } else if IsOff(line) {
        PendingAfterOff(lines, n);
      } else {
        PendingAfterUnmarked(lines, n);
      }
    }
  }

  /** Lines without markers leave the state as it is. */
  lemma {:induction false} Quiet(lines: seq<string>, a: nat, b: nat)
    requires a <= b <= |lines|
    requires forall k :: a <= k < b ==> Unmarked(lines[k])
    ensures StateAt(lines, b) == StateAt(lines, a)
    decreases b
  {
    if a < b {
      Quiet(lines, a, b - 1);
    }
  }

  /** From the pending `OFF` line to the end of the file the inspection stays off. */
  lemma OffToTheEnd(lines: seq<string>)
    ensures var d := StateAt(lines, |lines|).disabledIn;
            forall m :: 0 < d <= m <= |lines| ==> !StateAt(lines, m).enabled
  {
    var d := StateAt(lines, |lines|).disabledIn;
    StateAtMarkers(lines, |lines|);
    forall m | 0 < d <= m <= |lines|
      ensures !StateAt(lines, m).enabled
    {
      Quiet(lines, d, m);
    }
  }

  /** A line is inspected exactly when it does not carry `SKIP` and no `OFF` is pending
      once its own markers are read. */
  lemma InspectedMarkers(lines: seq<string>, i: nat)
    requires i < |lines|
    ensures Inspected(lines, i) <==> !IsSkip(lines[i]) && !PendingOff(lines, i + 1)
  {
    StateAtMarkers(lines, i + 1);
  }

  /** A line with `ON` and without `SKIP` is inspected, even after an `OFF`. */
  lemma OnLineInspected(lines: seq<string>, i: nat)
    requires i < |lines| && IsOn(lines[i]) && !IsSkip(lines[i])
    ensures Inspected(lines, i)
  {
  }

  /** A line with `OFF` and without `ON`, and every line up to the next line with `ON`,
      is not inspected. */
  lemma OffRangeSilenced(lines: seq<string>, off: nat, i: nat)
    requires off <= i < |lines| && OffOnly(lines[off])
    requires forall k :: off < k <= i ==> !IsOn(lines[k])
    ensures !Inspected(lines, i)
  {
    InspectedMarkers(lines, i);
    assert PendingFrom(lines, off, i + 1);
  }

  // The scan

  /** Each issue reported from line `i` on belongs to a later inspected line numbered
      from 1, and is an issue `inspect` finds on that line between its raw neighbours. */
  lemma {:induction false} ScanFromSound(inspect: LineInspector, lines: seq<string>, i: nat)
    requires i <= |lines|
    ensures var o := ScanFrom(inspect, lines, i, StateAt(lines, i));
            forall r :: r in o.items && r.Found? ==>
              i < r.line <= |lines| && Inspected(lines, r.line - 1) &&
              Issue(r.code, r.message) in inspect(Prev(lines, r.line - 1), lines[r.line - 1], Next(lines, r.line - 1)).items
    decreases |lines| - i
  {
    if i < |lines| {
      ScanFromSound(inspect, lines, i + 1);
      var out := inspect(Prev(lines, i), lines[i], Next(lines, i));
      forall k | 0 <= k < |out.items|
        ensures Issue(Tag(i + 1, out.items)[k].code, Tag(i + 1, out.items)[k].message) == out.items[k]
      {
      }
    }
  }

  /** Before the end of the file only issues are reported; the reminder comes last, on
      the line of the pending `OFF`, and exactly when one is pending. */
  lemma {:induction false} ScanFromShape(inspect: LineInspector, lines: seq<string>, i: nat)
    requires i <= |lines|
    ensures var o := ScanFrom(inspect, lines, i, StateAt(lines, i));
            forall k :: 0 <= k < |o.items| && o.items[k].Reenable? ==>
              o.Completed? && k == |o.items| - 1 &&
              o.items[k] == Reenable(StateAt(lines, |lines|).disabledIn, ReenableMessage)
    ensures var o := ScanFrom(inspect, lines, i, StateAt(lines, i));
            o.Completed? ==>
              (StateAt(lines, |lines|).disabledIn > 0 <==> |o.items| > 0 && o.items[|o.items| - 1].Reenable?)
    decreases |lines| - i
  {
    if i < |lines| {
      ScanFromShape(inspect, lines, i + 1);
    }
  }

  /** The issues come out in the order of their lines. */
  lemma {:induction false} ScanFromOrdered(inspect: LineInspector, lines: seq<string>, i: nat)
    requires i <= |lines|
    ensures var o := ScanFrom(inspect, lines, i, StateAt(lines, i));
            forall a, b :: 0 <= a < b < |o.items| && o.items[a].Found? && o.items[b].Found? ==>
              o.items[a].line <= o.items[b].line
    decreases |lines| - i
  {
    if i < |lines| {
      ScanFromOrdered(inspect, lines, i + 1);
      ScanFromSound(inspect, lines, i + 1);
    }
  }

  /** When the scan runs to the end, every issue found on an inspected line from `i` on
      is reported with that line's number. */
  lemma {:induction false} ScanFromComplete(inspect: LineInspector, lines: seq<string>, i: nat)
    requires i <= |lines|
    ensures var o := ScanFrom(inspect, lines, i, StateAt(lines, i));
            o.Completed? ==>
              forall j, k :: i <= j < |lines| && Inspected(lines, j) &&
                             0 <= k < |inspect(Prev(lines, j), lines[j], Next(lines, j)).items| ==>
                var x := inspect(Prev(lines, j), lines[j], Next(lines, j)).items[k];
                Found(j + 1, x.code, x.message) in o.items
    decreases |lines| - i
  {
    if i < |lines| {
      ScanFromComplete(inspect, lines, i + 1);
    }
  }

  /** The scan raises exactly when inspecting some line from `i` on raises. */
  lemma {:induction false} ScanFromRaises(inspect: LineInspector, lines: seq<string>, i: nat)
    requires i <= |lines|
    ensures ScanFrom(inspect, lines, i, StateAt(lines, i)).Raised? <==>
            exists j :: i <= j < |lines| && Inspected(lines, j) && inspect(Prev(lines, j), lines[j], Next(lines, j)).Raised?
    decreases |lines| - i
  {
    if i < |lines| {
      ScanFromRaises(inspect, lines, i + 1);
    }
  }

  // The whole file

  /** An empty file yields nothing. */
  lemma EmptyFile(inspect: LineInspector)
    ensures Scan(inspect, []) == Completed([])
  {
  }

  /** Every issue reported is on an inspected line, numbered from 1, and is an issue
      `inspect` finds on that line between its raw neighbours, which are passed whether
      or not they are inspected themselves. */
  lemma ReportedLines(inspect: LineInspector, lines: seq<string>)
    ensures forall r :: r in Scan(inspect, lines).items && r.Found? ==>
              1 <= r.line <= |lines| && Inspected(lines, r.line - 1) &&
              Issue(r.code, r.message) in inspect(Prev(lines, r.line - 1), lines[r.line - 1], Next(lines, r.line - 1)).items
  {
    ScanFromSound(inspect, lines, 0);
  }

  /** Every issue found on an inspected line is reported, when the scan runs to the
      end. */
  lemma InspectedLinesReported(inspect: LineInspector, lines: seq<string>, j: nat, x: Issue)
    requires j < |lines| && Inspected(lines, j)
    requires x in inspect(Prev(lines, j), lines[j], Next(lines, j)).items
    requires Scan(inspect, lines).Completed?
    ensures Found(j + 1, x.code, x.message) in Scan(inspect, lines).items
  {
    ScanFromComplete(inspect, lines, 0);
    var items := inspect(Prev(lines, j), lines[j], Next(lines, j)).items;
    var k :| 0 <= k < |items| && items[k] == x;
  }

  /** The reminder, when it is yielded, comes after every issue: its line is greater than
      theirs. */
  lemma TrailerAfterIssues(inspect: LineInspector, lines: seq<string>)
    ensures forall r, t ::
              r in Scan(inspect, lines).items && t in Scan(inspect, lines).items && r.Found? && t.Reenable? ==>
                r.line < t.line
  {
    var items := Scan(inspect, lines).items;
    ScanFromSound(inspect, lines, 0);
    ScanFromShape(inspect, lines, 0);
    OffToTheEnd(lines);
    StateAtMarkers(lines, |lines|);
  }

  /** Line numbers never decrease along what the scan yields. */
  lemma LinesNondecreasing(inspect: LineInspector, lines: seq<string>)
    ensures var items := Scan(inspect, lines).items;
            forall a, b :: 0 <= a < b < |items| ==> items[a].line <= items[b].line
  {
    var items := Scan(inspect, lines).items;
    ScanFromOrdered(inspect, lines, 0);
    ScanFromShape(inspect, lines, 0);
    TrailerAfterIssues(inspect, lines);
    forall a, b | 0 <= a < b < |items|
      ensures items[a].line <= items[b].line
    {
      if items[b].Reenable? {
        assert items[a] in items && items[b] in items;
      }
    }
  }

  /** When the scan runs to the end, the reminder is yielded exactly when an `OFF` is
      pending at the end of the file; it is the last report, it carries the fixed
      message, and its line is the last line with a marker, which has `OFF` and not
      `ON`. */
  lemma TrailerRule(inspect: LineInspector, lines: seq<string>)
    requires Scan(inspect, lines).Completed?
    ensures var items := Scan(inspect, lines).items;
            (|items| > 0 && items[|items| - 1].Reenable?) <==> PendingOff(lines, |lines|)
    ensures var items := Scan(inspect, lines).items;
            forall k :: 0 <= k < |items| && items[k].Reenable? ==>
              k == |items| - 1 && items[k].message == ReenableMessage &&
              1 <= items[k].line <= |lines| && OffOnly(lines[items[k].line - 1]) &&
              forall m :: items[k].line <= m < |lines| ==> Unmarked(lines[m])
  {
    ScanFromShape(inspect, lines, 0);
    StateAtMarkers(lines, |lines|);
  }

  /** The scan raises exactly when inspecting some inspected line raises. */
  lemma ScanRaises(inspect: LineInspector, lines: seq<string>)
    ensures Scan(inspect, lines).Raised? <==>
            exists j :: 0 <= j < |lines| && Inspected(lines, j) && inspect(Prev(lines, j), lines[j], Next(lines, j)).Raised?
  {
    ScanFromRaises(inspect, lines, 0);
  }

  /** With `inspect_line` under a rule set, a code that is switched off is reported on
      no line of the file. */
  lemma DisabledNeverInFile(lines: seq<string>, rules: RuleSet, code: string)
    requires !Enabled(rules, code)
    ensures forall r :: r in Scan(InspectorOf(rules), lines).items && r.Found? ==> r.code != code
  {
    ReportedLines(InspectorOf(rules), lines);
    forall r | r in Scan(InspectorOf(rules), lines).items && r.Found?
      ensures r.code != code
    {
      var i := r.line - 1;
      var found := InspectLine(Prev(lines, i), lines[i], Next(lines, i), rules);
      assert Issue(r.code, r.message) in found.items;
      DisabledNeverReported(Prev(lines, i), lines[i], Next(lines, i), rules, code);
      assert r.code in Codes(found.items);
    }
  }
}
