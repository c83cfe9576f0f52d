/** The stateless line predicates of `codedust.py`: `is_line_empty`, `line_indent` and the
    section-header test that `inspect_line` performs inline. */
module LineClassifier {
  import opened Text

  /** `is_line_empty`: the line strips to the empty string. */
  predicate IsLineEmpty(line: string) {
    Strip(line) == ""
  }

  lemma IsLineEmptyAllSpace(line: string)
    ensures IsLineEmpty(line) <==> forall i :: 0 <= i < |line| ==> IsSpace(line[i])
  {
    StripEmpty(line);
  }

  /** `line_indent`: where the match of ` *` at the start of the line ends, that is the
      number of leading space characters (a tab ends the indentation). */
  function LineIndent(line: string): (n: nat)
    ensures n <= |line|
    ensures forall i :: 0 <= i < n ==> line[i] == ' '
    ensures n == |line| || line[n] != ' '
    decreases |line|
  {
    if |line| > 0 && line[0] == ' ' then 1 + LineIndent(line[1..]) else 0
  }

  /** `s` matches the regular expression `^c+$`: one or more copies of `c`. */
  predicate IsRun(s: string, c: char)
    decreases |s|
  {
    |s| > 0 && s[0] == c && (|s| == 1 || IsRun(s[1..], c))
  }

  lemma {:induction false} IsRunAll(s: string, c: char)
    ensures IsRun(s, c) <==> |s| > 0 && forall i :: 0 <= i < |s| ==> s[i] == c
    decreases |s|
  {
    if |s| > 1 {
      IsRunAll(s[1..], c);
      if |s| > 0 && forall i :: 0 <= i < |s| ==> s[i] == c {
        assert forall i :: 0 <= i < |s| - 1 ==> s[1..][i] == c;
      }
    }
  }

  /** The section-header test of `inspect_line`: the stripped line matches
      `(^\#+$)|(^\/+$)|(^\-+$)`. */
  predicate IsSectionHeader(line: string) {
    var t := Strip(line);
    IsRun(t, '#') || IsRun(t, '/') || IsRun(t, '-')
  }

  /** A header is a stripped line made of one or more copies of one character drawn from
      `#`, `/` and `-`. */
  lemma SectionHeaderShape(line: string)
    ensures IsSectionHeader(line) <==>
            var t := Strip(line);
            |t| > 0 && (t[0] == '#' || t[0] == '/' || t[0] == '-') &&
            forall i :: 0 <= i < |t| ==> t[i] == t[0]
  {
    var t := Strip(line);
    IsRunAll(t, '#');
    IsRunAll(t, '/');
    IsRunAll(t, '-');
  }

  /** A header cannot be an empty line, so CD0402 and the empty-line checks never meet. */
  lemma SectionHeaderNotEmpty(line: string)
    ensures IsSectionHeader(line) ==> !IsLineEmpty(line)
  {
  }

  /** A single `#` is a header for the code: the run has length one. */
  lemma SingleMarkIsHeader()
    ensures IsSectionHeader("#\n")
    ensures !IsSectionHeader("# x\n")
  {
    var s := "#\n";
    assert s[..1] == "#";
    assert RStrip(s) == "#";
    assert LStrip("#") == "#";
    var c := "# x\n";
    assert c[..3] == "# x";
    assert RStrip(c) == "# x";
    assert LStrip("# x") == "# x";
    assert !IsRun("# x", '#') by {
      IsRunAll("# x", '#');
      assert "# x"[1] != '#';
    }
  }
}
