/** `inspect_line` (codedust.py): a fixed chain of 23 checks, CD0101 to CD0502, each
    evaluated on the current line and its neighbours and each yielding its
    `(code, message)` pair when violated and not switched off. */
module Inspector {
  import opened Wrappers
  import opened Text
  import opened LineClassifier
  import opened Rules

  /** One `(code, message)` pair yielded by `inspect_line`. */
  datatype Issue = Issue(code: string, message: string)

  /** The number of checks in the chain. */
  const CheckCount := 23

  /** The number of the check at position `k` of the chain. The checks are numbered by
      group: 1xx empty lines, 2xx spacing, 3xx indentation, 4xx length, 5xx comments. */
  function CodeNumberAt(k: nat): nat
    requires k < CheckCount
  {
    if k < 6 then 101 + k
    else if k < 16 then 195 + k
    else if k < 19 then 285 + k
    else if k < 21 then 382 + k
    else 480 + k
  }

  /** A rule code: `CD` and the number in four digits. */
  function CodeName(n: nat): string
    requires n < 10000
  {
    var d3, m1 := n % 10, n / 10;
    var d2, m2 := m1 % 10, m1 / 10;
    var d1, d0 := m2 % 10, m2 / 10;
    "CD" + [Digit(d0), Digit(d1), Digit(d2), Digit(d3)]
  }

  /** The number a rule code carries, or -1 for a string that carries none. */
  function CodeNumber(code: string): int {
    if |code| >= 2 && AllDigits(code[2..]) then ParseDigits(code[2..]) else -1
  }

  /** The code of the check at position `k` of the chain. */
  function Code(k: nat): string {
    if k < CheckCount then CodeName(CodeNumberAt(k)) else ""
  }

  /** The message of each position of the chain. */
  function MessageOf(indentSize: int, maxLineLength: int, sectionHeaderLength: int): nat -> string {
    (k: nat) => Message(k, indentSize, maxLineLength, sectionHeaderLength)
  }

  /** The message of the check at position `k`; three of them quote a numeric setting. */
  function Message(k: nat, indentSize: int, maxLineLength: int, sectionHeaderLength: int): string {
    if k == 0 then "There should be no empty lines at the start of the file."
    else if k == 1 then "There should be no empty lines at the end of the file."
    else if k == 2 then "There should be a line break at the end of the file."
    else if k == 3 then "There should be no multiple consecutive empty lines."
    else if k == 4 then "There should be no empty lines at the start of a parenthesis block."
    else if k == 5 then "There should be no empty lines at the end of a parenthesis block."
    else if k == 6 then "There should be no multiple consecutive spaces in a line."
    else if k == 7 then "There should be no spaces at the end of a line."
    else if k == 8 then "There should be no space before comma."
    else if k == 9 then "There should be no space before semicolon."
    else if k == 10 then "There should be no space after opening parentheses."
    else if k == 11 then "There should be no space before closing parentheses."
    else if k == 12 then "There should be a space after comma."
    else if k == 13 then "There should be a space after semicolon."
    else if k == 14 then "There should be a space before equal sign."
    else if k == 15 then "There should be a space after equal sign."
    else if k == 16 then "Don't use tabs, use " + IntToString(indentSize) + " spaces."
    else if k == 17 then "Use " + IntToString(indentSize) + " spaces per indentation level."
    else if k == 18 then "Don't indent for more than one level (" + IntToString(indentSize) + " spaces) at a time."
    else if k == 19 then "Line should not be longer than " + IntToString(maxLineLength) + " characters."
    else if k == 20 then "Section header should be " + IntToString(sectionHeaderLength) + " characters long."
    else if k == 21 then "There should be a space between comment syntax characters and comment text."
    else "There should be a space before comment syntax characters."
  }

  /** The CD0302 message quotes the indentation size as a numeral that reads back as
      that size. */
  lemma IndentMessageQuotesSize(indentSize: int, maxLineLength: int, sectionHeaderLength: int)
    ensures exists s :: ParseInt(s) == Some(indentSize) &&
              MessageOf(indentSize, maxLineLength, sectionHeaderLength)(17) == "Use " + s + " spaces per indentation level."
  {
    ParseIntRoundTrip(indentSize);
  }

  /** The CD0401 message quotes the maximum line length as a numeral that reads back as
      that length. */
  lemma LengthMessageQuotesLimit(indentSize: int, maxLineLength: int, sectionHeaderLength: int)
    ensures exists s :: ParseInt(s) == Some(maxLineLength) &&
              MessageOf(indentSize, maxLineLength, sectionHeaderLength)(19) == "Line should not be longer than " + s + " characters."
  {
    ParseIntRoundTrip(maxLineLength);
  }

  /** The CD0402 message quotes the section header length as a numeral that reads back
      as that length. */
  lemma HeaderMessageQuotesLength(indentSize: int, maxLineLength: int, sectionHeaderLength: int)
    ensures exists s :: ParseInt(s) == Some(sectionHeaderLength) &&
              MessageOf(indentSize, maxLineLength, sectionHeaderLength)(20) ==
              "Section header should be " + s + " characters long."
  {
    ParseIntRoundTrip(sectionHeaderLength);
  }

  // Character classes of the regular expressions

  predicate IsComma(c: char) { c == ',' }
  predicate IsSemicolon(c: char) { c == ';' }
  predicate IsEquals(c: char) { c == '=' }

  /** `[\w\(]` */
  predicate WordOrParen(c: char) { IsWordChar(c) || c == '(' }

  /** `[a-z0-9\)\]\}\"\']` */
  predicate BeforeEquals(c: char) { IsLowerLetter(c) || IsDigit(c) || c in ")]}\"'" }

  /** `[a-z0-9\(\[\{\"\']` */
  predicate AfterEquals(c: char) { IsLowerLetter(c) || IsDigit(c) || c in "([{\"'" }

  /** `re.search(r'[\{\[\(\<]$', t)` on a stripped line `t`. */
  predicate OpensBlock(t: string) { |t| > 0 && t[|t| - 1] in "{[(<" }

  /** `re.search(r'^[\}\]\)\>]', t)` on a stripped line `t`. */
  predicate ClosesBlock(t: string) { |t| > 0 && t[0] in "}])>" }

  // The checks, group by group, in the order of the source

  /** CD0101 to CD0103, evaluated on every line. */
  predicate EdgeCondition(j: nat, prev: Option<string>, curr: string, next: Option<string>)
    requires j < 3
  {
    if j == 0 then IsLineEmpty(curr) && prev.None?
    else if j == 1 then IsLineEmpty(curr) && next.None?
    else !EndsWith(curr, "\n") && next.None?
  }

  /** CD0104 to CD0106, evaluated once a previous line `p` exists; CD0106 needs a next
      line when the current one is blank. */
  predicate BlockCondition(j: nat, p: string, curr: string, next: Option<string>)
    requires 3 <= j < 6
    requires j == 5 ==> !(IsLineEmpty(curr) && next.None?)
  {
    if j == 3 then IsLineEmpty(p) && IsLineEmpty(curr)
    else if j == 4 then IsLineEmpty(curr) && OpensBlock(Strip(p))
    else IsLineEmpty(curr) && ClosesBlock(Strip(next.value))
  }

  /** CD0201 to CD0210. */
  predicate SpacingCondition(j: nat, curr: string)
    requires 6 <= j < 16
  {
    if j == 6 then Contains(Strip(curr), "  ")
    else if j == 7 then EndsWith(curr, " \n")
    else if j == 8 then Contains(Strip(curr), " ,")
    else if j == 9 then Contains(Strip(curr), " ;")
    else if j == 10 then Contains(Strip(curr), "( ")
    else if j == 11 then Contains(Strip(curr), " )")
    else if j == 12 then HasPair(curr, IsComma, WordOrParen)
    else if j == 13 then HasPair(curr, IsSemicolon, WordOrParen)
    else if j == 14 then HasPair(curr, BeforeEquals, IsEquals) && !Contains(curr, "====")
    else HasPair(curr, IsEquals, AfterEquals) && !Contains(curr, "====")
  }

  /** CD0301 to CD0303; the last two only for a nonzero indentation size. */
  predicate IndentCondition(j: nat, p: string, curr: string, size: int)
    requires 16 <= j < 19
    requires j > 16 ==> size != 0
  {
    if j == 16 then Contains(curr, "\t")
    else if j == 17 then LineIndent(curr) % size != 0
    else !IsLineEmpty(p) && LineIndent(curr) > LineIndent(p) && LineIndent(curr) - LineIndent(p) > size
  }

  /** CD0401 and CD0402. */
  predicate LengthCondition(j: nat, curr: string, maxLineLength: int, sectionHeaderLength: int)
    requires 19 <= j < 21
  {
    if j == 19 then |RStrip(curr)| > maxLineLength
    else IsSectionHeader(curr) && |Strip(curr)| != sectionHeaderLength
  }

  /** CD0501 and CD0502, which apply only to a non-empty marker that occurs in a line that
      is not a section header. */
  predicate CommentCondition(j: nat, curr: string, lineComment: Option<string>)
    requires 21 <= j < 23
  {
    match lineComment
    case None => false
    case Some(m) =>
      |m| > 0 && Contains(curr, m) && !IsSectionHeader(curr) &&
      if j == 21 then !Contains(curr, m + " ")
      else !Contains(curr, " " + m) && !StartsWith(curr, m)
  }

  /** Which positions of the chain have their code on. */
  function SwitchedOn(rules: RuleSet): nat -> bool {
    (k: nat) => Enabled(rules, Code(k))
  }

  /** The positions, from `k` on, of the checks whose outcome in `conditions` is a
      violation and that are switched `on`, in the order of the chain. */
  function Fired(on: nat -> bool, conditions: seq<bool>, k: nat): (ps: seq<nat>)
    ensures forall i :: 0 <= i < |ps| ==> k <= ps[i] < k + |conditions|
    decreases |conditions|
  {
    if conditions == [] then []
    else (if conditions[0] && on(k) then [k] else []) + Fired(on, conditions[1..], k + 1)
  }

  /** The pairs of the checks at `positions`. */
  function Issues(messages: nat -> string, positions: seq<nat>): seq<Issue>
  {
    seq(|positions|, i requires 0 <= i < |positions| => Issue(Code(positions[i]), messages(positions[i])))
  }

  /** The pairs yielded by the checks at positions `k`, `k + 1`, ... whose outcomes are
      `conditions`. */
  function Emit(rules: RuleSet, conditions: seq<bool>, k: nat): seq<Issue>
  {
    Issues(MessageOf(rules.indentSize, rules.maxLineLength, rules.sectionHeaderLength), Fired(SwitchedOn(rules), conditions, k))
  }

  /** How many checks of the chain `inspect_line` reaches. Without a previous line it
      stops after CD0103. With one, the CD0106 check strips the next line, which raises an
      `AttributeError` for a blank last line, after CD0105; and the CD0302 check divides by
      the indentation size, which raises a `ZeroDivisionError` for a size of zero, after
      CD0301. */
  function Reached(prev: Option<string>, curr: string, next: Option<string>, rules: RuleSet): (n: nat)
    ensures n <= CheckCount
  {
    if prev.None? then 3
    else if IsLineEmpty(curr) && next.None? then 5
    else if rules.indentSize == 0 then 17
    else CheckCount
  }

  /** `inspect_line` ends in an exception. */
  predicate Raises(prev: Option<string>, curr: string, next: Option<string>, rules: RuleSet) {
    prev.Some? && Reached(prev, curr, next, rules) < CheckCount
  }

  /** Whether the check at position `j` is violated, group by group in the order of the
      source; defined for the checks the chain reaches. */
  function Condition(j: nat, prev: Option<string>, curr: string, next: Option<string>, rules: RuleSet): bool
    requires j < Reached(prev, curr, next, rules)
  {
    if j < 3 then EdgeCondition(j, prev, curr, next)
    else if j < 6 then BlockCondition(j, prev.value, curr, next)
    else if j < 16 then SpacingCondition(j, curr)
    else if j < 19 then IndentCondition(j, prev.value, curr, rules.indentSize)
    else if j < 21 then LengthCondition(j, curr, rules.maxLineLength, rules.sectionHeaderLength)
    else CommentCondition(j, curr, rules.lineComment)
  }

  /** The outcomes of the checks the chain reaches, in order. */
  function Conditions(prev: Option<string>, curr: string, next: Option<string>, rules: RuleSet): (c: seq<bool>)
    ensures |c| == Reached(prev, curr, next, rules)
  {
    var n := Reached(prev, curr, next, rules);
    seq(n, j requires 0 <= j < n => Condition(j, prev, curr, next, rules))
  }

  /** `inspect_line(prev, curr, next, rules)`: the pairs of the checks reached; when the
      generator raises, the pairs yielded before the exception are kept. */
  function InspectLine(prev: Option<string>, curr: string, next: Option<string>, rules: RuleSet): Outcome<Issue> {
    var items := Emit(rules, Conditions(prev, curr, next, rules), 0);
    if Raises(prev, curr, next, rules) then Raised(items) else Completed(items)
  }

  // The codes

  lemma CodeNumberOfName(n: nat)
    requires n < 10000
    ensures CodeNumber(CodeName(n)) == n
  {
    var d3, m1 := n % 10, n / 10;
    var d2, m2 := m1 % 10, m1 / 10;
    var d1, d0 := m2 % 10, m2 / 10;
    var s1 := [Digit(d0)];
    var s2 := s1 + [Digit(d1)];
    var s3 := s2 + [Digit(d2)];
    var s4 := s3 + [Digit(d3)];
    assert CodeName(n)[2..] == s4;
    assert [] + [Digit(d0)] == s1;
    ParseDigitsSnoc([], d0);
    ParseDigitsSnoc(s1, d1);
    ParseDigitsSnoc(s2, d2);
    ParseDigitsSnoc(s3, d3);
  }

  /** The chain checks the codes in strictly ascending order. */
  lemma CodesAscending(i: nat, j: nat)
    requires i < j < CheckCount
    ensures CodeNumber(Code(i)) < CodeNumber(Code(j))
  {
    CodeNumberOfName(CodeNumberAt(i));
    CodeNumberOfName(CodeNumberAt(j));
  }

  /** Every code names one check. */
  lemma CodeInjective(i: nat, j: nat)
    requires i < CheckCount && j < CheckCount && Code(i) == Code(j)
    ensures i == j
  {
    if i < j {
      CodesAscending(i, j);
    } else if j < i {
      CodesAscending(j, i);
    }
  }

  // What the chain yields

  /** The codes of a sequence of pairs, in order. */
  function Codes(items: seq<Issue>): (r: seq<string>)
    ensures |r| == |items| && forall i :: 0 <= i < |items| ==> r[i] == items[i].code
  {
    seq(|items|, i requires 0 <= i < |items| => items[i].code)
  }

  /** The codes of the checks at `positions`. */
  function CodesAt(positions: seq<nat>): seq<string>
  {
    seq(|positions|, i requires 0 <= i < |positions| => Code(positions[i]))
  }

  /** Each code carries a lower number than every code after it. */
  predicate Ascending(codes: seq<string>) {
    forall i, j :: 0 <= i < j < |codes| ==> CodeNumber(codes[i]) < CodeNumber(codes[j])
  }

  /** Every position that fires is a violated check that is on. */
  lemma {:induction false} FiredSound(on: nat -> bool, conditions: seq<bool>, k: nat)
    ensures forall i :: 0 <= i < |Fired(on, conditions, k)| ==>
              conditions[Fired(on, conditions, k)[i] - k] && on(Fired(on, conditions, k)[i])
    decreases |conditions|
  {
    if conditions != [] {
      FiredSound(on, conditions[1..], k + 1);
    }
  }

  /** Every violated check that is on fires. */
  lemma {:induction false} FiredComplete(on: nat -> bool, conditions: seq<bool>, k: nat, j: nat)
    requires k <= j < k + |conditions|
    requires conditions[j - k] && on(j)
    ensures j in Fired(on, conditions, k)
    decreases |conditions|
  {
    if j > k {
      FiredComplete(on, conditions[1..], k + 1, j);
    }
  }

  /** The positions fire in the order of the chain. */
  lemma {:induction false} FiredIncreasing(on: nat -> bool, conditions: seq<bool>, k: nat)
    ensures forall i, i' :: 0 <= i < i' < |Fired(on, conditions, k)| ==>
              Fired(on, conditions, k)[i] < Fired(on, conditions, k)[i']
    decreases |conditions|
  {
    if conditions != [] {
      FiredIncreasing(on, conditions[1..], k + 1);
    }
  }

  /** The codes of the pairs are the codes of the checks that fired. */
  lemma EmitCodes(rules: RuleSet, conditions: seq<bool>)
    ensures Codes(Emit(rules, conditions, 0)) == CodesAt(Fired(SwitchedOn(rules), conditions, 0))
  {
  }

  /** The codes of the checks that fired ascend. */
  lemma FiredCodesAscending(on: nat -> bool, conditions: seq<bool>)
    requires |conditions| <= CheckCount
    ensures Ascending(CodesAt(Fired(on, conditions, 0)))
  {
    var ps := Fired(on, conditions, 0);
    FiredIncreasing(on, conditions, 0);
    forall i, i' | 0 <= i < i' < |ps|
      ensures CodeNumber(CodesAt(ps)[i]) < CodeNumber(CodesAt(ps)[i'])
    {
      CodesAscending(ps[i], ps[i']);
    }
  }

  /** Each code of a check that fired belongs to a violated check that is on. */
  lemma FiredCodesSound(on: nat -> bool, conditions: seq<bool>)
    ensures forall c :: c in CodesAt(Fired(on, conditions, 0)) ==>
              exists j :: 0 <= j < |conditions| && conditions[j] && on(j) && c == Code(j)
  {
    var ps := Fired(on, conditions, 0);
    FiredSound(on, conditions, 0);
    forall c | c in CodesAt(ps)
      ensures exists j :: 0 <= j < |conditions| && conditions[j] && on(j) && c == Code(j)
    {
      var i :| 0 <= i < |ps| && CodesAt(ps)[i] == c;
      assert conditions[ps[i]] && on(ps[i]) && c == Code(ps[i]);
    }
  }

  /** Each code of a check that fired belongs to one of the checks evaluated. */
  lemma FiredCodesBelow(on: nat -> bool, conditions: seq<bool>)
    ensures forall c :: c in CodesAt(Fired(on, conditions, 0)) ==>
              exists j :: 0 <= j < |conditions| && c == Code(j)
  {
    var ps := Fired(on, conditions, 0);
    forall c | c in CodesAt(ps)
      ensures exists j :: 0 <= j < |conditions| && c == Code(j)
    {
      var i :| 0 <= i < |ps| && CodesAt(ps)[i] == c;
      assert c == Code(ps[i]);
    }
  }

  /** The codes reported by a run of checks ascend, and each is the code of a violated
      check that is on. */
  lemma EmitStructure(rules: RuleSet, conditions: seq<bool>)
    requires |conditions| <= CheckCount
    ensures Ascending(Codes(Emit(rules, conditions, 0)))
    ensures forall c :: c in Codes(Emit(rules, conditions, 0)) ==>
              Enabled(rules, c) && exists j :: 0 <= j < |conditions| && conditions[j] && c == Code(j)
  {
    var on := SwitchedOn(rules);
    EmitCodes(rules, conditions);
    FiredCodesAscending(on, conditions);
    FiredCodesSound(on, conditions);
    forall c | c in CodesAt(Fired(on, conditions, 0))
      ensures Enabled(rules, c)
    {
      var j :| 0 <= j < |conditions| && conditions[j] && on(j) && c == Code(j);
    }
  }

  /** A check whose code is among those that fired has fired. */
  lemma FiredReportsSound(on: nat -> bool, conditions: seq<bool>, j: nat)
    requires j < |conditions| <= CheckCount
    requires Code(j) in CodesAt(Fired(on, conditions, 0))
    ensures conditions[j] && on(j)
  {
    var ps := Fired(on, conditions, 0);
    FiredSound(on, conditions, 0);
    var i :| 0 <= i < |ps| && CodesAt(ps)[i] == Code(j);
    assert conditions[ps[i]] && on(ps[i]);
    CodeInjective(ps[i], j);
  }

  /** The code of a check that fired is among the codes that fired. */
  lemma FiredReportsComplete(on: nat -> bool, conditions: seq<bool>, j: nat)
    requires j < |conditions|
    requires conditions[j] && on(j)
    ensures Code(j) in CodesAt(Fired(on, conditions, 0))
  {
    var ps := Fired(on, conditions, 0);
    FiredComplete(on, conditions, 0, j);
    var i :| 0 <= i < |ps| && ps[i] == j;
    assert CodesAt(ps)[i] == Code(j);
  }

  /** The code of a check is reported exactly when its condition holds and the code is
      on. */
  lemma EmitReports(rules: RuleSet, conditions: seq<bool>, j: nat)
    requires j < |conditions| <= CheckCount
    ensures Code(j) in Codes(Emit(rules, conditions, 0)) <==> conditions[j] && Enabled(rules, Code(j))
  {
    var on := SwitchedOn(rules);
    EmitCodes(rules, conditions);
    if Code(j) in CodesAt(Fired(on, conditions, 0)) {
      FiredReportsSound(on, conditions, j);
    }
    if conditions[j] && on(j) {
      FiredReportsComplete(on, conditions, j);
    }
  }

  /** `items` without the pairs whose code is `code`. */
  function Without(items: seq<Issue>, code: string): (r: seq<Issue>)
    ensures forall x :: x in r <==> x in items && x.code != code
  {
    if items == [] then []
    else (if items[0].code == code then [] else [items[0]]) + Without(items[1..], code)
  }

  lemma {:induction false} WithoutConcat(a: seq<Issue>, b: seq<Issue>, code: string)
    ensures Without(a + b, code) == Without(a, code) + Without(b, code)
    decreases |a|
  {
    if a != [] {
      var head := if a[0].code == code then [] else [a[0]];
      assert (a + b)[0] == a[0] && (a + b)[1..] == a[1..] + b;
      assert Without(a + b, code) == head + Without(a[1..] + b, code);
      assert Without(a, code) == head + Without(a[1..], code);
      WithoutConcat(a[1..], b, code);
    } else {
      assert a + b == b;
    }
  }

  /** The positions that `keep` keeps, in order. */
  function Skip(positions: seq<nat>, keep: nat -> bool): (r: seq<nat>)
  {
    if positions == [] then []
    else (if keep(positions[0]) then [positions[0]] else []) + Skip(positions[1..], keep)
  }

  lemma {:induction false} SkipConcat(a: seq<nat>, b: seq<nat>, keep: nat -> bool)
    ensures Skip(a + b, keep) == Skip(a, keep) + Skip(b, keep)
    decreases |a|
  {
    if a != [] {
      assert (a + b)[0] == a[0] && (a + b)[1..] == a[1..] + b;
      SkipConcat(a[1..], b, keep);
    } else {
      assert a + b == b;
    }
  }

  lemma SkipHead(on: nat -> bool, on': nat -> bool, keep: nat -> bool, violated: bool, k: nat)
    requires on'(k) == (on(k) && keep(k))
    ensures (if violated && on'(k) then [k] else []) == Skip(if violated && on(k) then [k] else [], keep)
  {
    if violated && on(k) {
      assert Skip([k], keep) == (if keep(k) then [k] else []) + Skip([], keep);
    }
  }

  /** Switching off the positions that `keep` drops removes exactly those positions. */
  lemma {:induction false} FiredDisable(on: nat -> bool, on': nat -> bool, keep: nat -> bool, conditions: seq<bool>, k: nat)
    requires forall i :: on'(i) == (on(i) && keep(i))
    ensures Fired(on', conditions, k) == Skip(Fired(on, conditions, k), keep)
    decreases |conditions|
  {
    if conditions != [] {
      var head := if conditions[0] && on(k) then [k] else [];
      var head' := if conditions[0] && on'(k) then [k] else [];
      var rest := Fired(on, conditions[1..], k + 1);
      calc {
        Fired(on', conditions, k);
        head' + Fired(on', conditions[1..], k + 1);
        { FiredDisable(on, on', keep, conditions[1..], k + 1); }
        head' + Skip(rest, keep);
        { SkipHead(on, on', keep, conditions[0], k); }
        Skip(head, keep) + Skip(rest, keep);
        { SkipConcat(head, rest, keep); }
        Skip(head + rest, keep);
      }
    }
  }

  lemma IssuesConcat(messages: nat -> string, a: seq<nat>, b: seq<nat>)
    ensures Issues(messages, a + b) == Issues(messages, a) + Issues(messages, b)
  {
  }

  lemma IssuesSkipOne(messages: nat -> string, keep: nat -> bool, p: nat, code: string)
    requires keep(p) == (Code(p) != code)
    ensures Issues(messages, Skip([p], keep)) == Without(Issues(messages, [p]), code)
  {
    var item := Issue(Code(p), messages(p));
    assert Issues(messages, [p]) == [item];
    assert Without([item], code) == (if item.code == code then [] else [item]) + Without([], code);
    assert Skip([p], keep) == (if keep(p) then [p] else []) + Skip([], keep);
  }

  /** Keeping the positions whose code is not `code` keeps the pairs whose code is not
      `code`. */
  lemma {:induction false} IssuesSkip(messages: nat -> string, keep: nat -> bool, positions: seq<nat>, code: string)
    requires forall i :: keep(i) == (Code(i) != code)
    ensures Issues(messages, Skip(positions, keep)) == Without(Issues(messages, positions), code)
    decreases |positions|
  {
    if positions != [] {
      var p, rest := positions[0], positions[1..];
      assert positions == [p] + rest;
      SkipConcat([p], rest, keep);
      IssuesConcat(messages, Skip([p], keep), Skip(rest, keep));
      IssuesSkipOne(messages, keep, p, code);
      IssuesSkip(messages, keep, rest, code);
      WithoutConcat(Issues(messages, [p]), Issues(messages, rest), code);
      IssuesConcat(messages, [p], rest);
    }
  }

  /** Switching a code off removes its pairs and changes nothing else. */
  lemma EmitDisable(rules: RuleSet, conditions: seq<bool>, code: string)
    ensures Emit(Disable(rules, code), conditions, 0) == Without(Emit(rules, conditions, 0), code)
  {
    var on, on' := SwitchedOn(rules), SwitchedOn(Disable(rules, code));
    var keep := (i: nat) => Code(i) != code;
    forall i: nat
      ensures on'(i) == (on(i) && keep(i))
    {
    }
    FiredDisable(on, on', keep, conditions, 0);
    IssuesSkip(MessageOf(rules.indentSize, rules.maxLineLength, rules.sectionHeaderLength), keep, Fired(on, conditions, 0), code);
  }

  // inspect_line

  /** The codes `inspect_line` reports ascend, so none repeats; each is on and belongs to
      an evaluated check that is violated. */
  lemma InspectLineCodes(prev: Option<string>, curr: string, next: Option<string>, rules: RuleSet)
    ensures Ascending(Codes(InspectLine(prev, curr, next, rules).items))
    ensures forall c :: c in Codes(InspectLine(prev, curr, next, rules).items) ==>
              Enabled(rules, c) &&
              exists j :: 0 <= j < |Conditions(prev, curr, next, rules)| &&
                          Conditions(prev, curr, next, rules)[j] && c == Code(j)
  {
    EmitStructure(rules, Conditions(prev, curr, next, rules));
  }

  /** Each code `inspect_line` reports belongs to a check the chain reaches. */
  lemma InspectLineCodesBelow(prev: Option<string>, curr: string, next: Option<string>, rules: RuleSet)
    ensures forall c :: c in Codes(InspectLine(prev, curr, next, rules).items) ==>
              exists j :: 0 <= j < Reached(prev, curr, next, rules) && c == Code(j)
  {
    var conditions := Conditions(prev, curr, next, rules);
    EmitCodes(rules, conditions);
    FiredCodesBelow(SwitchedOn(rules), conditions);
  }

  /** An evaluated check reports its code exactly when it is violated and on. */
  lemma InspectLineReports(prev: Option<string>, curr: string, next: Option<string>, rules: RuleSet, j: nat)
    requires j < |Conditions(prev, curr, next, rules)|
    ensures Code(j) in Codes(InspectLine(prev, curr, next, rules).items) <==>
            Conditions(prev, curr, next, rules)[j] && Enabled(rules, Code(j))
  {
    EmitReports(rules, Conditions(prev, curr, next, rules), j);
  }

  /** Each pair holds the code of one position and that position's message. */
  lemma IssuesFrom(messages: nat -> string, positions: seq<nat>)
    ensures forall x :: x in Issues(messages, positions) ==>
              exists i :: 0 <= i < |positions| && x == Issue(Code(positions[i]), messages(positions[i]))
  {
    forall x | x in Issues(messages, positions)
      ensures exists i :: 0 <= i < |positions| && x == Issue(Code(positions[i]), messages(positions[i]))
    {
      var i :| 0 <= i < |positions| && Issues(messages, positions)[i] == x;
    }
  }

  /** Each pair `inspect_line` yields is the code of an evaluated check that is violated
      and on, together with that check's message under the rule set's settings. */
  lemma InspectLinePairs(prev: Option<string>, curr: string, next: Option<string>, rules: RuleSet)
    ensures var messages := MessageOf(rules.indentSize, rules.maxLineLength, rules.sectionHeaderLength);
            forall x :: x in InspectLine(prev, curr, next, rules).items ==>
              exists j :: 0 <= j < Reached(prev, curr, next, rules) &&
                          Conditions(prev, curr, next, rules)[j] && Enabled(rules, Code(j)) &&
                          x == Issue(Code(j), messages(j))
  {
    var messages := MessageOf(rules.indentSize, rules.maxLineLength, rules.sectionHeaderLength);
    var conditions := Conditions(prev, curr, next, rules);
    var on := SwitchedOn(rules);
    var ps := Fired(on, conditions, 0);
    IssuesFrom(messages, ps);
    FiredSound(on, conditions, 0);
  }

  /** A code that is off is never reported. */
  lemma DisabledNeverReported(prev: Option<string>, curr: string, next: Option<string>, rules: RuleSet, code: string)
    requires !Enabled(rules, code)
    ensures code !in Codes(InspectLine(prev, curr, next, rules).items)
  {
    InspectLineCodes(prev, curr, next, rules);
  }

  /** Whether a check is violated does not depend on which codes are on. */
  lemma ConditionsIgnoreToggles(prev: Option<string>, curr: string, next: Option<string>, rules: RuleSet, code: string)
    ensures Conditions(prev, curr, next, Disable(rules, code)) == Conditions(prev, curr, next, rules)
  {
    var off := Disable(rules, code);
    assert off.indentSize == rules.indentSize && off.maxLineLength == rules.maxLineLength;
    assert off.sectionHeaderLength == rules.sectionHeaderLength && off.lineComment == rules.lineComment;
    assert Reached(prev, curr, next, off) == Reached(prev, curr, next, rules);
    forall j | 0 <= j < Reached(prev, curr, next, rules)
      ensures Condition(j, prev, curr, next, off) == Condition(j, prev, curr, next, rules)
    {
    }
  }

  /** Switching one code off removes exactly its pair and leaves the others, and the
      place where the generator raises, unchanged. */
  lemma InspectLineDisable(prev: Option<string>, curr: string, next: Option<string>, rules: RuleSet, code: string)
    ensures InspectLine(prev, curr, next, Disable(rules, code)).items == Without(InspectLine(prev, curr, next, rules).items, code)
    ensures InspectLine(prev, curr, next, Disable(rules, code)).Raised? == InspectLine(prev, curr, next, rules).Raised?
  {
    var off := Disable(rules, code);
    var c := Conditions(prev, curr, next, rules);
    ConditionsIgnoreToggles(prev, curr, next, rules, code);
    EmitDisable(rules, c, code);
    assert Reached(prev, curr, next, off) == Reached(prev, curr, next, rules);
    assert Raises(prev, curr, next, off) == Raises(prev, curr, next, rules);
  }


  /** `inspect_line` raises exactly when there is a previous line and either the line is
      a blank last line (CD0106 strips the missing next line) or the indentation size is
      zero (CD0302 divides by it). */
  lemma RaisesRule(prev: Option<string>, curr: string, next: Option<string>, rules: RuleSet)
    ensures InspectLine(prev, curr, next, rules).Raised? <==>
            prev.Some? && ((IsLineEmpty(curr) && next.None?) || rules.indentSize == 0)
  {
  }

  /** On the first line only CD0101, CD0102 and CD0103 can be reported, and the
      generator runs to its end. */
  lemma FirstLineOnly(curr: string, next: Option<string>, rules: RuleSet)
    ensures InspectLine(None, curr, next, rules).Completed?
    ensures forall c :: c in Codes(InspectLine(None, curr, next, rules).items) ==>
              c == "CD0101" || c == "CD0102" || c == "CD0103"
  {
    InspectLineCodesBelow(None, curr, next, rules);
    FirstThreeCodes(Codes(InspectLine(None, curr, next, rules).items));
  }

  lemma FirstThreeCodes(codes: seq<string>)
    requires forall c :: c in codes ==> exists j :: 0 <= j < 3 && c == Code(j)
    ensures forall c :: c in codes ==> c == "CD0101" || c == "CD0102" || c == "CD0103"
  {
    EmptyAtStartCode();
    EmptyAtEndCode();
    FinalLineBreakCode();
    forall c | c in codes
      ensures c == "CD0101" || c == "CD0102" || c == "CD0103"
    {
      var j :| 0 <= j < 3 && c == Code(j);
      assert j == 0 || j == 1 || j == 2;
    }
  }

  /** A file made of one blank line `"\n"` gets CD0101 and CD0102, where they are on,
      and nothing else. */
  lemma SingleBlankLine(rules: RuleSet)
    ensures InspectLine(None, "\n", None, rules).Completed?
    ensures forall c :: c in Codes(InspectLine(None, "\n", None, rules).items) <==>
              (c == "CD0101" || c == "CD0102") && Enabled(rules, c)
  {
    assert IsLineEmpty("\n") by {
      IsLineEmptyAllSpace("\n");
    }
    assert EndsWith("\n", "\n");
    FirstLineOnly("\n", None, rules);
    EmptyAtStartRule(None, "\n", None, rules);
    EmptyAtEndRule(None, "\n", None, rules);
    FinalLineBreakRule(None, "\n", None, rules);
  }

  /** A blank last line after some line: the generator raises after the CD0105 check,
      so only CD0102 to CD0105 can be reported, and CD0102 is whenever it is on. */
  lemma BlankLastLine(p: string, curr: string, rules: RuleSet)
    requires IsLineEmpty(curr)
    ensures InspectLine(Some(p), curr, None, rules).Raised?
    ensures forall c :: c in Codes(InspectLine(Some(p), curr, None, rules).items) ==>
              c == "CD0102" || c == "CD0103" || c == "CD0104" || c == "CD0105"
    ensures "CD0102" in Codes(InspectLine(Some(p), curr, None, rules).items) <==> Enabled(rules, "CD0102")
  {
    RaisesRule(Some(p), curr, None, rules);
    BlankLastLineCodes(p, curr, rules);
    EmptyAtEndRule(Some(p), curr, None, rules);
  }

  lemma BlankLastLineCodes(p: string, curr: string, rules: RuleSet)
    requires IsLineEmpty(curr)
    ensures forall c :: c in Codes(InspectLine(Some(p), curr, None, rules).items) ==>
              c == "CD0102" || c == "CD0103" || c == "CD0104" || c == "CD0105"
  {
    var codes := Codes(InspectLine(Some(p), curr, None, rules).items);
    assert Reached(Some(p), curr, None, rules) == 5;
    InspectLineCodesBelow(Some(p), curr, None, rules);
    EmptyAtStartRule(Some(p), curr, None, rules);
    assert "CD0101" !in codes;
    SecondToFifthCodes(codes);
  }

  lemma SecondToFifthCodes(codes: seq<string>)
    requires forall c :: c in codes ==> exists j :: 0 <= j < 5 && c == Code(j)
    requires "CD0101" !in codes
    ensures forall c :: c in codes ==> c == "CD0102" || c == "CD0103" || c == "CD0104" || c == "CD0105"
  {
    EmptyAtStartCode();
    EmptyAtEndCode();
    FinalLineBreakCode();
    ConsecutiveEmptyCode();
    EmptyAfterOpeningCode();
    forall c | c in codes
      ensures c == "CD0102" || c == "CD0103" || c == "CD0104" || c == "CD0105"
    {
      var j :| 0 <= j < 5 && c == Code(j);
      assert j == 1 || j == 2 || j == 3 || j == 4;
    }
  }


  /** With an indentation size of zero the generator raises after the CD0301 check, so
      no code from CD0302 on is reported. */
  lemma ZeroIndentSize(p: string, curr: string, next: Option<string>, rules: RuleSet)
    requires !(IsLineEmpty(curr) && next.None?) && rules.indentSize == 0
    ensures InspectLine(Some(p), curr, next, rules).Raised?
    ensures forall c :: c in Codes(InspectLine(Some(p), curr, next, rules).items) ==> CodeNumber(c) < 302
  {
    InspectLineCodesBelow(Some(p), curr, next, rules);
    IndentWidthCode();
    CodeNumberOfName(302);
    CodesBefore(Codes(InspectLine(Some(p), curr, next, rules).items), 17);
  }

  /** The codes of checks before position `n` carry lower numbers than the code at `n`. */
  lemma CodesBefore(codes: seq<string>, n: nat)
    requires n < CheckCount
    requires forall c :: c in codes ==> exists j :: 0 <= j < n && c == Code(j)
    ensures forall c :: c in codes ==> CodeNumber(c) < CodeNumber(Code(n))
  {
    forall c | c in codes
      ensures CodeNumber(c) < CodeNumber(Code(n))
    {
      var j :| 0 <= j < n && c == Code(j);
      CodesAscending(j, n);
    }
  }

  /** The default rule set of a project without configuration. */
  const DefaultRules := RuleSet(4, 120, 100, None, map[])

  /** With the default indentation size of 4, a line indented by three spaces under an
      unindented line breaks CD0302 but not CD0303. */
  lemma IndentByThree(p: string, curr: string, next: Option<string>)
    requires LineIndent(p) == 0 && LineIndent(curr) == 3 && !(IsLineEmpty(curr) && next.None?)
    ensures "CD0302" in Codes(InspectLine(Some(p), curr, next, DefaultRules).items)
    ensures "CD0303" !in Codes(InspectLine(Some(p), curr, next, DefaultRules).items)
  {
    IndentWidthRule(p, curr, next, DefaultRules);
    IndentStepRule(p, curr, next, DefaultRules);
  }

  /** A line indented by eight spaces under an unindented non-blank line breaks CD0303
      but not CD0302: the step is two levels at once. */
  lemma IndentByEight(p: string, curr: string, next: Option<string>)
    requires LineIndent(p) == 0 && !IsLineEmpty(p) && LineIndent(curr) == 8 && !(IsLineEmpty(curr) && next.None?)
    ensures "CD0302" !in Codes(InspectLine(Some(p), curr, next, DefaultRules).items)
    ensures "CD0303" in Codes(InspectLine(Some(p), curr, next, DefaultRules).items)
  {
    IndentWidthRule(p, curr, next, DefaultRules);
    IndentStepRule(p, curr, next, DefaultRules);
  }

  // The checks one by one

  /** Whether the code at position `j` is reported, in terms of that check's condition. */
  lemma Reports(prev: Option<string>, curr: string, next: Option<string>, rules: RuleSet, j: nat)
    requires j < Reached(prev, curr, next, rules)
    ensures Code(j) in Codes(InspectLine(prev, curr, next, rules).items) <==>
            Condition(j, prev, curr, next, rules) && Enabled(rules, Code(j))
  {
    InspectLineReports(prev, curr, next, rules, j);
  }

  lemma ReportsAs(prev: Option<string>, curr: string, next: Option<string>, rules: RuleSet, j: nat, code: string, violated: bool)
    requires j < Reached(prev, curr, next, rules)
    requires Code(j) == code && Condition(j, prev, curr, next, rules) == violated
    ensures code in Codes(InspectLine(prev, curr, next, rules).items) <==> violated && Enabled(rules, code)
  {
    Reports(prev, curr, next, rules, j);
  }

  /** CD0101: a blank first line. */
  lemma EmptyAtStartRule(prev: Option<string>, curr: string, next: Option<string>, rules: RuleSet)
    ensures "CD0101" in Codes(InspectLine(prev, curr, next, rules).items) <==>
            Enabled(rules, "CD0101") && prev.None? && IsLineEmpty(curr)
  {
    EmptyAtStartCode();
    EmptyAtStartCheck(prev, curr, next, rules);
    ReportsAs(prev, curr, next, rules, 0, "CD0101", prev.None? && IsLineEmpty(curr));
  }

  lemma EmptyAtStartCode()
    ensures Code(0) == "CD0101"
  {
    assert CodeNumberAt(0) == 101;
  }

  lemma EmptyAtStartCheck(prev: Option<string>, curr: string, next: Option<string>, rules: RuleSet)
    ensures 0 < Reached(prev, curr, next, rules)
    ensures Condition(0, prev, curr, next, rules) == (prev.None? && IsLineEmpty(curr))
  {
    assert Condition(0, prev, curr, next, rules) == EdgeCondition(0, prev, curr, next);
  }

  /** CD0102: a blank last line; it is reported before the CD0106 check raises. */
  lemma EmptyAtEndRule(prev: Option<string>, curr: string, next: Option<string>, rules: RuleSet)
    ensures "CD0102" in Codes(InspectLine(prev, curr, next, rules).items) <==>
            Enabled(rules, "CD0102") && next.None? && IsLineEmpty(curr)
  {
    EmptyAtEndCode();
    EmptyAtEndCheck(prev, curr, next, rules);
    ReportsAs(prev, curr, next, rules, 1, "CD0102", next.None? && IsLineEmpty(curr));
  }

  lemma EmptyAtEndCode()
    ensures Code(1) == "CD0102"
  {
    assert CodeNumberAt(1) == 102;
  }

  lemma EmptyAtEndCheck(prev: Option<string>, curr: string, next: Option<string>, rules: RuleSet)
    ensures 1 < Reached(prev, curr, next, rules)
    ensures Condition(1, prev, curr, next, rules) == (next.None? && IsLineEmpty(curr))
  {
    assert Condition(1, prev, curr, next, rules) == EdgeCondition(1, prev, curr, next);
  }

  /** CD0103: a last line without a final line break. */
  lemma FinalLineBreakRule(prev: Option<string>, curr: string, next: Option<string>, rules: RuleSet)
    ensures "CD0103" in Codes(InspectLine(prev, curr, next, rules).items) <==>
            Enabled(rules, "CD0103") && next.None? && !EndsWith(curr, "\n")
  {
    FinalLineBreakCode();
    FinalLineBreakCheck(prev, curr, next, rules);
    ReportsAs(prev, curr, next, rules, 2, "CD0103", next.None? && !EndsWith(curr, "\n"));
  }

  lemma FinalLineBreakCode()
    ensures Code(2) == "CD0103"
  {
    assert CodeNumberAt(2) == 103;
  }

  lemma FinalLineBreakCheck(prev: Option<string>, curr: string, next: Option<string>, rules: RuleSet)
    ensures 2 < Reached(prev, curr, next, rules)
    ensures Condition(2, prev, curr, next, rules) == (next.None? && !EndsWith(curr, "\n"))
  {
    assert Condition(2, prev, curr, next, rules) == EdgeCondition(2, prev, curr, next);
  }

  /** CD0104: a blank line after a blank line. */
  lemma ConsecutiveEmptyRule(p: string, curr: string, next: Option<string>, rules: RuleSet)
    ensures "CD0104" in Codes(InspectLine(Some(p), curr, next, rules).items) <==>
            Enabled(rules, "CD0104") && IsLineEmpty(p) && IsLineEmpty(curr)
  {
    ConsecutiveEmptyCode();
    ConsecutiveEmptyCheck(p, curr, next, rules);
    ReportsAs(Some(p), curr, next, rules, 3, "CD0104", IsLineEmpty(p) && IsLineEmpty(curr));
  }

  lemma ConsecutiveEmptyCode()
    ensures Code(3) == "CD0104"
  {
    assert CodeNumberAt(3) == 104;
  }

  lemma ConsecutiveEmptyCheck(p: string, curr: string, next: Option<string>, rules: RuleSet)
    ensures 3 < Reached(Some(p), curr, next, rules)
    ensures Condition(3, Some(p), curr, next, rules) == (IsLineEmpty(p) && IsLineEmpty(curr))
  {
    assert Condition(3, Some(p), curr, next, rules) == BlockCondition(3, p, curr, next);
  }

  /** CD0105: a blank line after a line that ends with an opening bracket. */
  lemma EmptyAfterOpeningRule(p: string, curr: string, next: Option<string>, rules: RuleSet)
    ensures "CD0105" in Codes(InspectLine(Some(p), curr, next, rules).items) <==>
            Enabled(rules, "CD0105") && IsLineEmpty(curr) && OpensBlock(Strip(p))
  {
    EmptyAfterOpeningCode();
    EmptyAfterOpeningCheck(p, curr, next, rules);
    ReportsAs(Some(p), curr, next, rules, 4, "CD0105", IsLineEmpty(curr) && OpensBlock(Strip(p)));
  }

  lemma EmptyAfterOpeningCode()
    ensures Code(4) == "CD0105"
  {
    assert CodeNumberAt(4) == 105;
  }

  lemma EmptyAfterOpeningCheck(p: string, curr: string, next: Option<string>, rules: RuleSet)
    ensures 4 < Reached(Some(p), curr, next, rules)
    ensures Condition(4, Some(p), curr, next, rules) == (IsLineEmpty(curr) && OpensBlock(Strip(p)))
  {
    assert Condition(4, Some(p), curr, next, rules) == BlockCondition(4, p, curr, next);
  }

  /** CD0106: a blank line before a line that starts with a closing bracket. */
  lemma EmptyBeforeClosingRule(p: string, curr: string, next: Option<string>, rules: RuleSet)
    requires !(IsLineEmpty(curr) && next.None?)
    ensures "CD0106" in Codes(InspectLine(Some(p), curr, next, rules).items) <==>
            Enabled(rules, "CD0106") && IsLineEmpty(curr) && ClosesBlock(Strip(next.value))
  {
    EmptyBeforeClosingCode();
    EmptyBeforeClosingCheck(p, curr, next, rules);
    ReportsAs(Some(p), curr, next, rules, 5, "CD0106", IsLineEmpty(curr) && ClosesBlock(Strip(next.value)));
  }

  lemma EmptyBeforeClosingCode()
    ensures Code(5) == "CD0106"
  {
    assert CodeNumberAt(5) == 106;
  }

  lemma EmptyBeforeClosingCheck(p: string, curr: string, next: Option<string>, rules: RuleSet)
    requires !(IsLineEmpty(curr) && next.None?)
    ensures 5 < Reached(Some(p), curr, next, rules)
    ensures Condition(5, Some(p), curr, next, rules) == (IsLineEmpty(curr) && ClosesBlock(Strip(next.value)))
  {
    assert Condition(5, Some(p), curr, next, rules) == BlockCondition(5, p, curr, next);
  }

  /** CD0201: two spaces in a row inside the stripped line. */
  lemma MultipleSpacesRule(p: string, curr: string, next: Option<string>, rules: RuleSet)
    requires !(IsLineEmpty(curr) && next.None?)
    ensures "CD0201" in Codes(InspectLine(Some(p), curr, next, rules).items) <==>
            Enabled(rules, "CD0201") && Contains(Strip(curr), "  ")
  {
    MultipleSpacesCode();
    MultipleSpacesCheck(p, curr, next, rules);
    ReportsAs(Some(p), curr, next, rules, 6, "CD0201", Contains(Strip(curr), "  "));
  }

  lemma MultipleSpacesCode()
    ensures Code(6) == "CD0201"
  {
    assert CodeNumberAt(6) == 201;
  }

  lemma MultipleSpacesCheck(p: string, curr: string, next: Option<string>, rules: RuleSet)
    requires !(IsLineEmpty(curr) && next.None?)
    ensures 6 < Reached(Some(p), curr, next, rules)
    ensures Condition(6, Some(p), curr, next, rules) == (Contains(Strip(curr), "  "))
  {
    assert Condition(6, Some(p), curr, next, rules) == SpacingCondition(6, curr);
  }

  /** CD0202: a space right before the line break. */
  lemma TrailingSpaceRule(p: string, curr: string, next: Option<string>, rules: RuleSet)
    requires !(IsLineEmpty(curr) && next.None?)
    ensures "CD0202" in Codes(InspectLine(Some(p), curr, next, rules).items) <==>
            Enabled(rules, "CD0202") && EndsWith(curr, " \n")
  {
    TrailingSpaceCode();
    TrailingSpaceCheck(p, curr, next, rules);
    ReportsAs(Some(p), curr, next, rules, 7, "CD0202", EndsWith(curr, " \n"));
  }

  lemma TrailingSpaceCode()
    ensures Code(7) == "CD0202"
  {
    assert CodeNumberAt(7) == 202;
  }

  lemma TrailingSpaceCheck(p: string, curr: string, next: Option<string>, rules: RuleSet)
    requires !(IsLineEmpty(curr) && next.None?)
    ensures 7 < Reached(Some(p), curr, next, rules)
    ensures Condition(7, Some(p), curr, next, rules) == (EndsWith(curr, " \n"))
  {
    assert Condition(7, Some(p), curr, next, rules) == SpacingCondition(7, curr);
  }

  /** CD0203: a space before a comma inside the stripped line. */
  lemma SpaceBeforeCommaRule(p: string, curr: string, next: Option<string>, rules: RuleSet)
    requires !(IsLineEmpty(curr) && next.None?)
    ensures "CD0203" in Codes(InspectLine(Some(p), curr, next, rules).items) <==>
            Enabled(rules, "CD0203") && Contains(Strip(curr), " ,")
  {
    SpaceBeforeCommaCode();
    SpaceBeforeCommaCheck(p, curr, next, rules);
    ReportsAs(Some(p), curr, next, rules, 8, "CD0203", Contains(Strip(curr), " ,"));
  }

  lemma SpaceBeforeCommaCode()
    ensures Code(8) == "CD0203"
  {
    assert CodeNumberAt(8) == 203;
  }

  lemma SpaceBeforeCommaCheck(p: string, curr: string, next: Option<string>, rules: RuleSet)
    requires !(IsLineEmpty(curr) && next.None?)
    ensures 8 < Reached(Some(p), curr, next, rules)
    ensures Condition(8, Some(p), curr, next, rules) == (Contains(Strip(curr), " ,"))
  {
    assert Condition(8, Some(p), curr, next, rules) == SpacingCondition(8, curr);
  }

  /** CD0204: a space before a semicolon inside the stripped line. */
  lemma SpaceBeforeSemicolonRule(p: string, curr: string, next: Option<string>, rules: RuleSet)
    requires !(IsLineEmpty(curr) && next.None?)
    ensures "CD0204" in Codes(InspectLine(Some(p), curr, next, rules).items) <==>
            Enabled(rules, "CD0204") && Contains(Strip(curr), " ;")
  {
    SpaceBeforeSemicolonCode();
    SpaceBeforeSemicolonCheck(p, curr, next, rules);
    ReportsAs(Some(p), curr, next, rules, 9, "CD0204", Contains(Strip(curr), " ;"));
  }

  lemma SpaceBeforeSemicolonCode()
    ensures Code(9) == "CD0204"
  {
    assert CodeNumberAt(9) == 204;
  }

  lemma SpaceBeforeSemicolonCheck(p: string, curr: string, next: Option<string>, rules: RuleSet)
    requires !(IsLineEmpty(curr) && next.None?)
    ensures 9 < Reached(Some(p), curr, next, rules)
    ensures Condition(9, Some(p), curr, next, rules) == (Contains(Strip(curr), " ;"))
  {
    assert Condition(9, Some(p), curr, next, rules) == SpacingCondition(9, curr);
  }

  /** CD0205: a space after an opening parenthesis inside the stripped line. */
  lemma SpaceAfterOpeningRule(p: string, curr: string, next: Option<string>, rules: RuleSet)
    requires !(IsLineEmpty(curr) && next.None?)
    ensures "CD0205" in Codes(InspectLine(Some(p), curr, next, rules).items) <==>
            Enabled(rules, "CD0205") && Contains(Strip(curr), "( ")
  {
    SpaceAfterOpeningCode();
    SpaceAfterOpeningCheck(p, curr, next, rules);
    ReportsAs(Some(p), curr, next, rules, 10, "CD0205", Contains(Strip(curr), "( "));
  }

  lemma SpaceAfterOpeningCode()
    ensures Code(10) == "CD0205"
  {
    assert CodeNumberAt(10) == 205;
  }

  lemma SpaceAfterOpeningCheck(p: string, curr: string, next: Option<string>, rules: RuleSet)
    requires !(IsLineEmpty(curr) && next.None?)
    ensures 10 < Reached(Some(p), curr, next, rules)
    ensures Condition(10, Some(p), curr, next, rules) == (Contains(Strip(curr), "( "))
  {
    assert Condition(10, Some(p), curr, next, rules) == SpacingCondition(10, curr);
  }

  /** CD0206: a space before a closing parenthesis inside the stripped line. */
  lemma SpaceBeforeClosingRule(p: string, curr: string, next: Option<string>, rules: RuleSet)
    requires !(IsLineEmpty(curr) && next.None?)
    ensures "CD0206" in Codes(InspectLine(Some(p), curr, next, rules).items) <==>
            Enabled(rules, "CD0206") && Contains(Strip(curr), " )")
  {
    SpaceBeforeClosingCode();
    SpaceBeforeClosingCheck(p, curr, next, rules);
    ReportsAs(Some(p), curr, next, rules, 11, "CD0206", Contains(Strip(curr), " )"));
  }

  lemma SpaceBeforeClosingCode()
    ensures Code(11) == "CD0206"
  {
    assert CodeNumberAt(11) == 206;
  }

  lemma SpaceBeforeClosingCheck(p: string, curr: string, next: Option<string>, rules: RuleSet)
    requires !(IsLineEmpty(curr) && next.None?)
    ensures 11 < Reached(Some(p), curr, next, rules)
    ensures Condition(11, Some(p), curr, next, rules) == (Contains(Strip(curr), " )"))
  {
    assert Condition(11, Some(p), curr, next, rules) == SpacingCondition(11, curr);
  }

  /** CD0207: a comma directly followed by a word character or an opening parenthesis. */
  lemma SpaceAfterCommaRule(p: string, curr: string, next: Option<string>, rules: RuleSet)
    requires !(IsLineEmpty(curr) && next.None?)
    ensures "CD0207" in Codes(InspectLine(Some(p), curr, next, rules).items) <==>
            Enabled(rules, "CD0207") && exists i :: 0 <= i < |curr| - 1 && curr[i] == ',' && WordOrParen(curr[i + 1])
  {
    SpaceAfterCommaCode();
    SpaceAfterCommaCheck(p, curr, next, rules);
    ReportsAs(Some(p), curr, next, rules, 12, "CD0207", exists i :: 0 <= i < |curr| - 1 && curr[i] == ',' && WordOrParen(curr[i + 1]));
  }

  lemma SpaceAfterCommaCode()
    ensures Code(12) == "CD0207"
  {
    assert CodeNumberAt(12) == 207;
  }

  lemma SpaceAfterCommaCheck(p: string, curr: string, next: Option<string>, rules: RuleSet)
    requires !(IsLineEmpty(curr) && next.None?)
    ensures 12 < Reached(Some(p), curr, next, rules)
    ensures Condition(12, Some(p), curr, next, rules) == (exists i :: 0 <= i < |curr| - 1 && curr[i] == ',' && WordOrParen(curr[i + 1]))
  {
    assert Condition(12, Some(p), curr, next, rules) == SpacingCondition(12, curr);
    assert Condition(12, Some(p), curr, next, rules) == HasPair(curr, IsComma, WordOrParen);
    CommaFollowed(curr);
  }

  /** CD0208: a semicolon directly followed by a word character or an opening parenthesis. */
  lemma SpaceAfterSemicolonRule(p: string, curr: string, next: Option<string>, rules: RuleSet)
    requires !(IsLineEmpty(curr) && next.None?)
    ensures "CD0208" in Codes(InspectLine(Some(p), curr, next, rules).items) <==>
            Enabled(rules, "CD0208") && exists i :: 0 <= i < |curr| - 1 && curr[i] == ';' && WordOrParen(curr[i + 1])
  {
    SpaceAfterSemicolonCode();
    SpaceAfterSemicolonCheck(p, curr, next, rules);
    ReportsAs(Some(p), curr, next, rules, 13, "CD0208", exists i :: 0 <= i < |curr| - 1 && curr[i] == ';' && WordOrParen(curr[i + 1]));
  }

  lemma SpaceAfterSemicolonCode()
    ensures Code(13) == "CD0208"
  {
    assert CodeNumberAt(13) == 208;
  }

  lemma SpaceAfterSemicolonCheck(p: string, curr: string, next: Option<string>, rules: RuleSet)
    requires !(IsLineEmpty(curr) && next.None?)
    ensures 13 < Reached(Some(p), curr, next, rules)
    ensures Condition(13, Some(p), curr, next, rules) == (exists i :: 0 <= i < |curr| - 1 && curr[i] == ';' && WordOrParen(curr[i + 1]))
  {
    assert Condition(13, Some(p), curr, next, rules) == SpacingCondition(13, curr);
    assert Condition(13, Some(p), curr, next, rules) == HasPair(curr, IsSemicolon, WordOrParen);
    SemicolonFollowed(curr);
  }

  /** CD0209: an equal sign directly after a lower-case letter, digit, closing bracket or quote, in a line without `====`. */
  lemma SpaceBeforeEqualsRule(p: string, curr: string, next: Option<string>, rules: RuleSet)
    requires !(IsLineEmpty(curr) && next.None?)
    ensures "CD0209" in Codes(InspectLine(Some(p), curr, next, rules).items) <==>
            Enabled(rules, "CD0209") && HasPair(curr, BeforeEquals, IsEquals) && !Contains(curr, "====")
  {
    SpaceBeforeEqualsCode();
    SpaceBeforeEqualsCheck(p, curr, next, rules);
    ReportsAs(Some(p), curr, next, rules, 14, "CD0209", HasPair(curr, BeforeEquals, IsEquals) && !Contains(curr, "===="));
  }

  lemma SpaceBeforeEqualsCode()
    ensures Code(14) == "CD0209"
  {
    assert CodeNumberAt(14) == 209;
  }

  lemma SpaceBeforeEqualsCheck(p: string, curr: string, next: Option<string>, rules: RuleSet)
    requires !(IsLineEmpty(curr) && next.None?)
    ensures 14 < Reached(Some(p), curr, next, rules)
    ensures Condition(14, Some(p), curr, next, rules) == (HasPair(curr, BeforeEquals, IsEquals) && !Contains(curr, "===="))
  {
    assert Condition(14, Some(p), curr, next, rules) == SpacingCondition(14, curr);
    assert SpacingCondition(14, curr) == (HasPair(curr, BeforeEquals, IsEquals) && !Contains(curr, "===="));
  }

  /** CD0210: an equal sign directly before a lower-case letter, digit, opening bracket or quote, in a line without `====`. */
  lemma SpaceAfterEqualsRule(p: string, curr: string, next: Option<string>, rules: RuleSet)
    requires !(IsLineEmpty(curr) && next.None?)
    ensures "CD0210" in Codes(InspectLine(Some(p), curr, next, rules).items) <==>
            Enabled(rules, "CD0210") && HasPair(curr, IsEquals, AfterEquals) && !Contains(curr, "====")
  {
    SpaceAfterEqualsCode();
    SpaceAfterEqualsCheck(p, curr, next, rules);
    ReportsAs(Some(p), curr, next, rules, 15, "CD0210", HasPair(curr, IsEquals, AfterEquals) && !Contains(curr, "===="));
  }

  lemma SpaceAfterEqualsCode()
    ensures Code(15) == "CD0210"
  {
    assert CodeNumberAt(15) == 210;
  }

  lemma SpaceAfterEqualsCheck(p: string, curr: string, next: Option<string>, rules: RuleSet)
    requires !(IsLineEmpty(curr) && next.None?)
    ensures 15 < Reached(Some(p), curr, next, rules)
    ensures Condition(15, Some(p), curr, next, rules) == (HasPair(curr, IsEquals, AfterEquals) && !Contains(curr, "===="))
  {
    assert Condition(15, Some(p), curr, next, rules) == SpacingCondition(15, curr);
    assert SpacingCondition(15, curr) == (HasPair(curr, IsEquals, AfterEquals) && !Contains(curr, "===="));
  }

  /** CD0301: a tab anywhere in the line. */
  lemma TabRule(p: string, curr: string, next: Option<string>, rules: RuleSet)
    requires !(IsLineEmpty(curr) && next.None?)
    ensures "CD0301" in Codes(InspectLine(Some(p), curr, next, rules).items) <==>
            Enabled(rules, "CD0301") && Contains(curr, "\t")
  {
    TabCode();
    TabCheck(p, curr, next, rules);
    ReportsAs(Some(p), curr, next, rules, 16, "CD0301", Contains(curr, "\t"));
  }

  lemma TabCode()
    ensures Code(16) == "CD0301"
  {
    assert CodeNumberAt(16) == 301;
  }

  lemma TabCheck(p: string, curr: string, next: Option<string>, rules: RuleSet)
    requires !(IsLineEmpty(curr) && next.None?)
    ensures 16 < Reached(Some(p), curr, next, rules)
    ensures Condition(16, Some(p), curr, next, rules) == (Contains(curr, "\t"))
  {
    assert Condition(16, Some(p), curr, next, rules) == IndentCondition(16, p, curr, rules.indentSize);
  }

  /** CD0302: the indentation is not a multiple of the indentation size. */
  lemma IndentWidthRule(p: string, curr: string, next: Option<string>, rules: RuleSet)
    requires !(IsLineEmpty(curr) && next.None?)
    requires rules.indentSize != 0
    ensures "CD0302" in Codes(InspectLine(Some(p), curr, next, rules).items) <==>
            Enabled(rules, "CD0302") && LineIndent(curr) % rules.indentSize != 0
  {
    IndentWidthCode();
    IndentWidthCheck(p, curr, next, rules);
    ReportsAs(Some(p), curr, next, rules, 17, "CD0302", LineIndent(curr) % rules.indentSize != 0);
  }

  lemma IndentWidthCode()
    ensures Code(17) == "CD0302"
  {
    assert CodeNumberAt(17) == 302;
  }

  lemma IndentWidthCheck(p: string, curr: string, next: Option<string>, rules: RuleSet)
    requires !(IsLineEmpty(curr) && next.None?)
    requires rules.indentSize != 0
    ensures 17 < Reached(Some(p), curr, next, rules)
    ensures Condition(17, Some(p), curr, next, rules) == (LineIndent(curr) % rules.indentSize != 0)
  {
    assert Condition(17, Some(p), curr, next, rules) == IndentCondition(17, p, curr, rules.indentSize);
  }

  /** CD0303: the line deepens the indentation of a non-blank previous line by more than one indentation size. */
  lemma IndentStepRule(p: string, curr: string, next: Option<string>, rules: RuleSet)
    requires !(IsLineEmpty(curr) && next.None?)
    requires rules.indentSize != 0
    ensures "CD0303" in Codes(InspectLine(Some(p), curr, next, rules).items) <==>
            Enabled(rules, "CD0303") && !IsLineEmpty(p) && LineIndent(curr) > LineIndent(p) &&
            LineIndent(curr) - LineIndent(p) > rules.indentSize
  {
    IndentStepCode();
    IndentStepCheck(p, curr, next, rules);
    ReportsAs(Some(p), curr, next, rules, 18, "CD0303", !IsLineEmpty(p) && LineIndent(curr) > LineIndent(p) &&
            LineIndent(curr) - LineIndent(p) > rules.indentSize);
  }

  lemma IndentStepCode()
    ensures Code(18) == "CD0303"
  {
    assert CodeNumberAt(18) == 303;
  }

  lemma IndentStepCheck(p: string, curr: string, next: Option<string>, rules: RuleSet)
    requires !(IsLineEmpty(curr) && next.None?)
    requires rules.indentSize != 0
    ensures 18 < Reached(Some(p), curr, next, rules)
    ensures Condition(18, Some(p), curr, next, rules) == (!IsLineEmpty(p) && LineIndent(curr) > LineIndent(p) &&
            LineIndent(curr) - LineIndent(p) > rules.indentSize)
  {
    assert Condition(18, Some(p), curr, next, rules) == IndentCondition(18, p, curr, rules.indentSize);
  }

  /** CD0401: the line without its trailing white space is longer than the maximum. */
  lemma LineLengthRule(p: string, curr: string, next: Option<string>, rules: RuleSet)
    requires !(IsLineEmpty(curr) && next.None?)
    requires rules.indentSize != 0
    ensures "CD0401" in Codes(InspectLine(Some(p), curr, next, rules).items) <==>
            Enabled(rules, "CD0401") && |RStrip(curr)| > rules.maxLineLength
  {
    LineLengthCode();
    LineLengthCheck(p, curr, next, rules);
    ReportsAs(Some(p), curr, next, rules, 19, "CD0401", |RStrip(curr)| > rules.maxLineLength);
  }

  lemma LineLengthCode()
    ensures Code(19) == "CD0401"
  {
    assert CodeNumberAt(19) == 401;
  }

  lemma LineLengthCheck(p: string, curr: string, next: Option<string>, rules: RuleSet)
    requires !(IsLineEmpty(curr) && next.None?)
    requires rules.indentSize != 0
    ensures 19 < Reached(Some(p), curr, next, rules)
    ensures Condition(19, Some(p), curr, next, rules) == (|RStrip(curr)| > rules.maxLineLength)
  {
    assert Condition(19, Some(p), curr, next, rules) == LengthCondition(19, curr, rules.maxLineLength, rules.sectionHeaderLength);
  }

  /** CD0402: a section header whose stripped length differs from the configured one. */
  lemma HeaderLengthRule(p: string, curr: string, next: Option<string>, rules: RuleSet)
    requires !(IsLineEmpty(curr) && next.None?)
    requires rules.indentSize != 0
    ensures "CD0402" in Codes(InspectLine(Some(p), curr, next, rules).items) <==>
            Enabled(rules, "CD0402") && IsSectionHeader(curr) && |Strip(curr)| != rules.sectionHeaderLength
  {
    HeaderLengthCode();
    HeaderLengthCheck(p, curr, next, rules);
    ReportsAs(Some(p), curr, next, rules, 20, "CD0402", IsSectionHeader(curr) && |Strip(curr)| != rules.sectionHeaderLength);
  }

  lemma HeaderLengthCode()
    ensures Code(20) == "CD0402"
  {
    assert CodeNumberAt(20) == 402;
  }

  lemma HeaderLengthCheck(p: string, curr: string, next: Option<string>, rules: RuleSet)
    requires !(IsLineEmpty(curr) && next.None?)
    requires rules.indentSize != 0
    ensures 20 < Reached(Some(p), curr, next, rules)
    ensures Condition(20, Some(p), curr, next, rules) == (IsSectionHeader(curr) && |Strip(curr)| != rules.sectionHeaderLength)
  {
    assert Condition(20, Some(p), curr, next, rules) == LengthCondition(20, curr, rules.maxLineLength, rules.sectionHeaderLength);
  }

  /** CD0501: a line that holds the comment marker and is not a section header, where no space follows the marker. */
  lemma CommentTextSpaceRule(p: string, curr: string, next: Option<string>, rules: RuleSet)
    requires !(IsLineEmpty(curr) && next.None?)
    requires rules.indentSize != 0
    ensures "CD0501" in Codes(InspectLine(Some(p), curr, next, rules).items) <==>
            Enabled(rules, "CD0501") && rules.lineComment.Some? && |rules.lineComment.value| > 0 && Contains(curr, rules.lineComment.value) &&
            !IsSectionHeader(curr) && !Contains(curr, rules.lineComment.value + " ")
  {
    CommentTextSpaceCode();
    CommentTextSpaceCheck(p, curr, next, rules);
    ReportsAs(Some(p), curr, next, rules, 21, "CD0501", rules.lineComment.Some? && |rules.lineComment.value| > 0 && Contains(curr, rules.lineComment.value) &&
            !IsSectionHeader(curr) && !Contains(curr, rules.lineComment.value + " "));
  }

  lemma CommentTextSpaceCode()
    ensures Code(21) == "CD0501"
  {
    assert CodeNumberAt(21) == 501;
  }

  lemma CommentTextSpaceCheck(p: string, curr: string, next: Option<string>, rules: RuleSet)
    requires !(IsLineEmpty(curr) && next.None?)
    requires rules.indentSize != 0
    ensures 21 < Reached(Some(p), curr, next, rules)
    ensures Condition(21, Some(p), curr, next, rules) == (rules.lineComment.Some? && |rules.lineComment.value| > 0 && Contains(curr, rules.lineComment.value) &&
            !IsSectionHeader(curr) && !Contains(curr, rules.lineComment.value + " "))
  {
    assert Condition(21, Some(p), curr, next, rules) == CommentCondition(21, curr, rules.lineComment);
  }

  /** CD0502: a line that holds the comment marker and is not a section header, where no space precedes the marker and the line does not start with it. */
  lemma CommentLeadSpaceRule(p: string, curr: string, next: Option<string>, rules: RuleSet)
    requires !(IsLineEmpty(curr) && next.None?)
    requires rules.indentSize != 0
    ensures "CD0502" in Codes(InspectLine(Some(p), curr, next, rules).items) <==>
            Enabled(rules, "CD0502") && rules.lineComment.Some? && |rules.lineComment.value| > 0 && Contains(curr, rules.lineComment.value) &&
            !IsSectionHeader(curr) && !Contains(curr, " " + rules.lineComment.value) &&
            !StartsWith(curr, rules.lineComment.value)
  {
    CommentLeadSpaceCode();
    CommentLeadSpaceCheck(p, curr, next, rules);
    ReportsAs(Some(p), curr, next, rules, 22, "CD0502", rules.lineComment.Some? && |rules.lineComment.value| > 0 && Contains(curr, rules.lineComment.value) &&
            !IsSectionHeader(curr) && !Contains(curr, " " + rules.lineComment.value) &&
            !StartsWith(curr, rules.lineComment.value));
  }

  lemma CommentLeadSpaceCode()
    ensures Code(22) == "CD0502"
  {
    assert CodeNumberAt(22) == 502;
  }

  lemma CommentLeadSpaceCheck(p: string, curr: string, next: Option<string>, rules: RuleSet)
    requires !(IsLineEmpty(curr) && next.None?)
    requires rules.indentSize != 0
    ensures 22 < Reached(Some(p), curr, next, rules)
    ensures Condition(22, Some(p), curr, next, rules) == (rules.lineComment.Some? && |rules.lineComment.value| > 0 && Contains(curr, rules.lineComment.value) &&
            !IsSectionHeader(curr) && !Contains(curr, " " + rules.lineComment.value) &&
            !StartsWith(curr, rules.lineComment.value))
  {
    assert Condition(22, Some(p), curr, next, rules) == CommentCondition(22, curr, rules.lineComment);
  }

  lemma CommaFollowed(curr: string)
    ensures HasPair(curr, IsComma, WordOrParen) <==>
            exists i :: 0 <= i < |curr| - 1 && curr[i] == ',' && WordOrParen(curr[i + 1])
  {
    HasPairAt(curr, IsComma, WordOrParen);
  }

  lemma SemicolonFollowed(curr: string)
    ensures HasPair(curr, IsSemicolon, WordOrParen) <==>
            exists i :: 0 <= i < |curr| - 1 && curr[i] == ';' && WordOrParen(curr[i + 1])
  {
    HasPairAt(curr, IsSemicolon, WordOrParen);
  }
}
