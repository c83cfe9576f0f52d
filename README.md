# CodeDust line-hygiene checker, modelled in Dafny

CodeDust (`codedust.py`) checks source files line by line for layout problems. It flags:

- empty lines in the wrong places;
- stray or missing spaces;
- bad indentation;
- lines that are too long;
- section headers of the wrong length;
- badly spaced comment markers.

Each problem has a code from CD0101 to CD0502. Each code can be switched off per file
extension in an INI file. Comment markers in the checked file can switch the inspection
off (`CodeDust: OFF`) and on again (`CodeDust: ON`), or skip one line (`CodeDust: SKIP`).

The model has six modules:

- `Wrappers`: `Option`, and `Outcome`. An `Outcome` is the items a Python generator
  yields, tagged with whether it ran to its end (`Completed`) or raised (`Raised`).
- `Text`: the string operations the code relies on. These are `strip`, `rstrip`,
  `upper`, `lower`, `startswith`, `endswith`, substring `in`, the two-character regular
  expressions, `str()` of an integer and `int()` of a string.
- `LineClassifier`: `is_line_empty`, `line_indent`, and the section-header test that
  `inspect_line` does inline.
- `Rules`: the merge and coercion of `load_rules`, as the methods `CoerceRules` and
  `LoadRules`. Their loops are proved against the relation `ResolvedFrom`. Also the typed
  `RuleSet` that `inspect_line` reads.
- `Inspector`: `inspect_line`, a chain of 23 checks.
  - Each check has a position, a code, a condition and a message (`Code`, `Condition`,
    `Message`).
  - `InspectLine` yields the pairs of the checks that are violated and switched on, in
    chain order. The chain stops where the Python generator raises:
    - with no previous line, only the first three checks are evaluated;
    - on a blank last line, the CD0106 check strips `None` and raises, after CD0105;
    - with an indentation size of zero, the CD0302 check divides by zero and raises,
      after CD0301.
  - The pairs yielded before the exception are kept, as a caller iterating the
    generator would have received them.
- `Scanner`: `inspect_file`. The method `InspectFile` keeps the Python loop and its two
  state variables. It is proved equal to the recursive specification `Scan`. The lemmas
  about `Scan` are stated for any line inspector passed in as a function
  (`LineInspector`). `InspectorOf(rules)` is `inspect_line` under one rule set.

For a line that reaches the full chain, each code's lemma (`EmptyAtStartRule` …
`CommentLeadSpaceRule`) states when that code is reported. The code is reported if and
only if it is switched on and its condition holds.

- From CD0106 on, these lemmas require that the line is not a blank last line.
- From CD0302 on, they also require a nonzero indentation size.

Those are exactly the inputs for which the chain raises at or before the check. `RaisesRule`,
`BlankLastLine` and `ZeroIndentSize` state what happens then.

Python's `%` floors and Dafny's is Euclidean. Both give a remainder of zero for the
same operands, so the CD0302 test `% indent_size != 0` agrees for negative sizes too.

## Model

| member | source | states |
|---|---|---|
| `Text.Strip` | codedust.py:102-103 | `str.strip()`, `LStrip` after `RStrip`; no contract of its own: `StripEmpty` states when the result is empty, `LStrip` and `RStrip` what is removed |
| `Text.Upper` | codedust.py:91-93 | `str.upper()` on ASCII letters; no contract of its own: `UpperIdempotent` and `UpperInjective` state its properties |
| `Text.Lower` | codedust.py:92 | `str.lower()` on ASCII letters; no contract of its own: `CoercionExamples` shows `Disable` lowering to `disable` |
| `Text.Contains` | codedust.py:136-174 | Python's substring `in`; no contract of its own: `ContainsAt` states it holds if and only if the text occurs at some position |
| `Text.HasPair` | codedust.py:160-174 | `re.search` of a two-character class pattern; no contract of its own: `HasPairAt` states it holds if and only if some adjacent pair matches |
| `Text.IntToString` | codedust.py:181-207 | `str(i)` as an f-string renders it; no contract of its own: `ParseIntRoundTrip` and `NatToStringRoundTrip` state that it reads back as `i` |
| `Text.ParseInt` | codedust.py:96 | `int(s)` for an optional sign and digits, `None` where `int()` raises; no contract of its own: `ParseIntRoundTrip` and `CoercionExamples` state what it gives |
| `Text.IsSpace` | codedust.py:102-103 | the characters `str.strip()` and `str.rstrip()` remove, restricted to ASCII; no contract of its own: `StripEmpty`, `LStrip` and `RStrip` state what it decides |
| `Text.IsWordChar` | codedust.py:160-166 | `re`'s `\w` on ASCII: letters, digits and `_`; no contract of its own: `SpaceAfterCommaRule` and `SpaceAfterSemicolonRule` use it |
| `Text.StartsWith` | codedust.py:216 | `str.startswith`; no contract of its own: `CommentLeadSpaceRule` states the test at codedust.py:216, and `ContainsAt` builds on it |
| `Text.EndsWith` | codedust.py:118-140 | `str.endswith`; no contract of its own: `FinalLineBreakRule` and `TrailingSpaceRule` state the tests at codedust.py:118 and codedust.py:140 |
| `Text.LStrip` | codedust.py:103 | the result is a suffix of the input; every dropped character is white space; the result starts with a non-space |
| `Text.RStrip` | codedust.py:196 | the result is a prefix of the input; every dropped character is white space; the result ends with a non-space |
| `Text.StripEmpty` | codedust.py:102-103 | a string strips to the empty string if and only if every character is white space |
| `Text.ContainsAt` | codedust.py:136 | `t in s` holds if and only if `t` occurs at some position of `s` |
| `Text.HasPairAt` | codedust.py:160-174 | a two-character class pattern is found if and only if some adjacent pair of characters matches it |
| `Text.UpperIdempotent` | codedust.py:91-93 | upper-casing twice is the same as upper-casing once |
| `Text.UpperInjective` | codedust.py:91-93 | on keys without capitals (as `configparser` delivers them), distinct keys have distinct upper-cased forms, so no two keys share a rule code |
| `Text.ParseDigitsSnoc` | codedust.py:96 | appending a digit to a numeral multiplies its value by ten and adds the digit |
| `Text.NatToStringRoundTrip` | codedust.py:181 | `str(n)` is a non-empty, unsigned string of digits whose value is `n` |
| `Text.ParseIntRoundTrip` | codedust.py:96 | `int(str(i)) == i` for every integer, negative ones included |
| `LineClassifier.IsLineEmpty` | codedust.py:102-103 | `is_line_empty`; no contract of its own: `IsLineEmptyAllSpace` states it holds if and only if every character is white space |
| `LineClassifier.IsRun` | codedust.py:203 | `^c+$`; no contract of its own: `IsRunAll` states its meaning |
| `LineClassifier.IsSectionHeader` | codedust.py:202-204 | the inline header test; no contract of its own: `SectionHeaderShape`, `SectionHeaderNotEmpty` and `SingleMarkIsHeader` state what it accepts |
| `LineClassifier.IsLineEmptyAllSpace` | codedust.py:102-103 | `is_line_empty` holds if and only if every character is white space |
| `LineClassifier.LineIndent` | codedust.py:105-106 | `line_indent` is the length of the leading run of spaces: those characters are spaces and the next one is not |
| `LineClassifier.IsRunAll` | codedust.py:203 | `^c+$` matches if and only if the string is non-empty and every character is `c` |
| `LineClassifier.SectionHeaderShape` | codedust.py:202-204 | a header is a non-empty stripped line made of one character drawn from `#`, `/` and `-` |
| `LineClassifier.SectionHeaderNotEmpty` | codedust.py:202-204 | no section header is an empty line |
| `LineClassifier.SingleMarkIsHeader` | codedust.py:203 | a lone `#` is a section header; `# x` is not |
| `Rules.SectionOf` | codedust.py:83-88 | a section, or the empty map when the file has none of that name; no contract of its own: `MergedWithoutConfig` and `ResolvedSetting` use it |
| `Rules.Merged` | codedust.py:71-89 | the static defaults (the constant `StaticRules`), then the `default` section, then the extension's section; no contract of its own: `Layer`, `MergedRuleCodesFromSections` and `MergedWithoutConfig` state its keys and values |
| `Rules.IsRuleCode` | codedust.py:91 | `re.match(r"CD[0-9]{4}", key.upper())`, a prefix match; no contract of its own: `StaticKeysAreSettings` and `RuleCodeUpper` state its properties |
| `Rules.NormalKey` | codedust.py:91-93 | a rule-code key upper-cased, any other key unchanged; no contract of its own: `ResolvedFrom` and `MergedNoCaseClash` use it |
| `Rules.Toggle` | codedust.py:92 | false only for a value that lower-cases to `disable`; no contract of its own: `CoercionExamples` and `ResolvedToggle` state it |
| `Rules.CoerceInt` | codedust.py:94-98 | `int(v)` where it succeeds, `v` where it raises; no contract of its own: `CoerceIntNotBool`, `StaticValuesCoerce` and `CoercionExamples` state it |
| `Rules.NormalValue` | codedust.py:90-98 | `Toggle` for a rule code, `CoerceInt` otherwise; no contract of its own: `CoerceRules` stores it |
| `Rules.ResolvedFrom` | codedust.py:90-98 | the relation between the dictionary before and after the coercion loop; no contract of its own: `ResolvedUnique` shows it determines the result |
| `Rules.Enabled` | codedust.py:111 | `rules.get(code) != False`; no contract of its own: `RuleSetOf`, `ResolvedToggle` and `DisabledNeverReported` state it |
| `Rules.Layer` | codedust.py:84-89 | `{**base, **section}` has the keys of both; the section's value wins; the base keeps the rest |
| `Rules.StaticKeysAreSettings` | codedust.py:71-76 | no static default key is a rule code |
| `Rules.RuleCodeUpper` | codedust.py:91-93 | the upper-cased key of a rule code is a rule code that upper-casing leaves alone |
| `Rules.MergedRuleCodesFromSections` | codedust.py:83-89 | every rule-code key of a merged dictionary comes from the `default` or the extension's section |
| `Rules.MergedNoCaseClash` | codedust.py:83-93 | with lower-case section keys, no two rule-code keys of a merged dictionary upper-case to the same code |
| `Rules.CoerceRules` | codedust.py:90-98 | after the loop, every key is stored under its normal key with its normal value, and nothing else is stored: rule codes upper-cased with a boolean (false only for `disable` in any letter case); other values `int()`-converted where that succeeds, kept otherwise |
| `Rules.LoadRules` | codedust.py:70-100 | the result has exactly one entry per extension, and each entry is the coercion of static defaults, `default` section and extension section layered in that order |
| `Rules.RuleSetOf` | codedust.py:111-211 | in the typed view, a code is enabled if and only if its entry is not `False`, and there is no comment marker if and only if the entry is `None` or the integer 0, both false in the test at codedust.py:211 |
| `Rules.ResolvedUnique` | codedust.py:90-98 | the coercion determines its result |
| `Rules.CoerceIntNotBool` | codedust.py:94-98 | a setting never becomes a boolean |
| `Rules.ResolvedToggle` | codedust.py:91-93 | a code is enabled after loading if and only if every rule-code key that upper-cases to it holds a value that does not lower-case to `disable`; an unconfigured code is enabled |
| `Rules.StaticValuesCoerce` | codedust.py:71-76 | the static defaults survive coercion unchanged |
| `Rules.MergedWithoutConfig` | codedust.py:78-89 | without a configuration file, the merged dictionary is the static defaults |
| `Rules.ResolvedStatic` | codedust.py:71-98 | coercing the static defaults gives the static defaults |
| `Rules.RuleSetOfStatic` | codedust.py:71-76 | the static defaults are indentation 4, line length 120, header length 100, no comment marker, no toggle |
| `Rules.DefaultRuleSet` | codedust.py:70-100 | without a configuration file, every extension gets the static defaults with every rule on |
| `Rules.ResolvedSetting` | codedust.py:83-98 | a setting ends up as `int()` of its value from the last layer that has it, or that value's string when `int()` fails; an unoverridden default is kept |
| `Rules.CoercionExamples` | codedust.py:92-98 | `"80"` becomes 80 and `"-2"` becomes -2; `"#"` and `None` stay as they are; only `disable`, in any case, turns a rule off |
| `Inspector.InspectLine` | codedust.py:108-218 | the generator as an outcome: the pairs of the reached checks, and whether it raised; no contract of its own: `InspectLineCodes`, `InspectLineReports`, `InspectLinePairs`, `RaisesRule` and one lemma per code state it |
| `Inspector.Reached` | codedust.py:122-185 | how many checks the chain evaluates, at most 23; `RaisesRule`, `FirstLineOnly`, `BlankLastLine` and `ZeroIndentSize` state where it stops |
| `Inspector.Raises` | codedust.py:131-185 | the generator ends in an exception; no contract of its own: `RaisesRule` states when |
| `Inspector.Message` | codedust.py:112-218 | the 23 message texts in chain order, the numeric ones rendered with `str()`; no contract of its own: `InspectLinePairs` ties each pair to it, and the three `…Quotes…` lemmas state what the numeric ones contain |
| `Inspector.Code` | codedust.py:108-218 | the code of position `k` in the chain; no contract of its own: `CodesAscending`, `CodeInjective` and `CodeNumberOfName` state its properties |
| `Inspector.CodeNumberAt` | codedust.py:108-218 | the number of the code of position `k`: 101 to 106, 201 to 210, 301 to 303, 401, 402, 501, 502; no contract of its own: `CodesAscending` and `CodeInjective` state its properties |
| `Inspector.CodeName` | codedust.py:108-218 | the code string `CD` followed by four digits; no contract of its own: `CodeNumberOfName` states that it reads back as its number |
| `Inspector.OpensBlock` | codedust.py:127 | `re.search(r'[\{\[\(\<]$', …)` on the stripped previous line; no contract of its own: `EmptyAfterOpeningRule` states it |
| `Inspector.ClosesBlock` | codedust.py:131 | `re.search(r'^[\}\]\)\>]', …)` on the stripped next line; no contract of its own: `EmptyBeforeClosingRule` states it |
| `Inspector.WordOrParen` | codedust.py:160-166 | the class `[\w\(]` after a comma or a semicolon; no contract of its own: `SpaceAfterCommaRule` and `SpaceAfterSemicolonRule` state it |
| `Inspector.BeforeEquals` | codedust.py:168 | the class before `=` in the CD0209 pattern; no contract of its own: `SpaceBeforeEqualsRule` states it |
| `Inspector.AfterEquals` | codedust.py:172 | the class after `=` in the CD0210 pattern; no contract of its own: `SpaceAfterEqualsRule` states it |
| `Inspector.Condition` | codedust.py:108-218 | the condition of the check at a reached position, dispatched to its group; no contract of its own: `Reports` and the per-code lemmas state it |
| `Inspector.Fired` | codedust.py:108-218 | the positions, in chain order, whose condition holds and whose code is switched on (the `rules.get(code) != False` gate); every position lies within the checks examined |
| `Inspector.Emit` | codedust.py:108-218 | the `(code, message)` pairs of the fired positions, in chain order; no contract of its own: `InspectLinePairs` and `InspectLineCodes` state it |
| `Inspector.EdgeCondition` | codedust.py:110-120 | the conditions of CD0101 to CD0103; no contract of its own: `EmptyAtStartRule`, `EmptyAtEndRule` and `FinalLineBreakRule` state them |
| `Inspector.BlockCondition` | codedust.py:122-133 | the conditions of CD0104 to CD0106; no contract of its own: `ConsecutiveEmptyRule`, `EmptyAfterOpeningRule` and `EmptyBeforeClosingRule` state them |
| `Inspector.SpacingCondition` | codedust.py:135-174 | the conditions of CD0201 to CD0210; no contract of its own: the ten rule lemmas from `MultipleSpacesRule` to `SpaceAfterEqualsRule` state them |
| `Inspector.IndentCondition` | codedust.py:176-191 | the conditions of CD0301 to CD0303; no contract of its own: `TabRule`, `IndentWidthRule` and `IndentStepRule` state them |
| `Inspector.LengthCondition` | codedust.py:193-207 | the conditions of CD0401 and CD0402; no contract of its own: `LineLengthRule` and `HeaderLengthRule` state them |
| `Inspector.CommentCondition` | codedust.py:209-218 | the conditions of CD0501 and CD0502, for a non-empty marker found in a line that is not a section header; no contract of its own: `CommentTextSpaceRule` and `CommentLeadSpaceRule` state them |
| `Inspector.Conditions` | codedust.py:108-218 | the outcome of every check the chain reaches, in order: its length is `Reached`; `Reports` states how each entry decides a report |
| `Inspector.IndentMessageQuotesSize` | codedust.py:183-185 | the CD0302 message renders the indentation size as a numeral that reads back as that size |
| `Inspector.LengthMessageQuotesLimit` | codedust.py:196-198 | the CD0401 message renders the maximum line length as a numeral that reads back as that length |
| `Inspector.HeaderMessageQuotesLength` | codedust.py:202-207 | the CD0402 message renders the section header length as a numeral that reads back as that length |
| `Inspector.CodeNumberOfName` | codedust.py:108-218 | the code name built from a number below 10000 reads back as that number |
| `Inspector.CodesAscending` | codedust.py:108-218 | the codes of the chain ascend strictly in chain order |
| `Inspector.CodeInjective` | codedust.py:108-218 | no two checks share a code |
| `Inspector.InspectLineCodes` | codedust.py:108-218 | the reported codes ascend, so none repeats; each is switched on and belongs to an evaluated check that is violated |
| `Inspector.InspectLineCodesBelow` | codedust.py:108-218 | each reported code belongs to a check the chain reaches before it stops or raises |
| `Inspector.InspectLineReports` | codedust.py:108-218 | an evaluated check reports its code if and only if it is violated and switched on |
| `Inspector.InspectLinePairs` | codedust.py:108-218 | each yielded pair is the code of a reached, violated, switched-on check together with that check's message under the rule set's settings |
| `Inspector.DisabledNeverReported` | codedust.py:111 | a code whose entry is `False` is never reported |
| `Inspector.ConditionsIgnoreToggles` | codedust.py:108-218 | whether a check is violated does not depend on which codes are switched on |
| `Inspector.InspectLineDisable` | codedust.py:108-218 | switching one code off removes exactly its pair, leaves the other pairs in order, and does not change whether the generator raises |
| `Inspector.RaisesRule` | codedust.py:122-185 | the generator raises if and only if there is a previous line and either the line is a blank last line (`next_line.strip()` on `None`) or the indentation size is zero |
| `Inspector.FirstLineOnly` | codedust.py:110-122 | on the first line, only CD0101, CD0102 and CD0103 can be reported, and the generator completes |
| `Inspector.SingleBlankLine` | codedust.py:110-120 | in a file made of one blank line, CD0101 and CD0102 are reported, each when it is on, nothing else is, and the generator completes |
| `Inspector.BlankLastLine` | codedust.py:114-131 | a blank last line after another line raises; only CD0102 to CD0105 can be reported, and CD0102 is whenever it is on |
| `Inspector.ZeroIndentSize` | codedust.py:176-185 | an indentation size of zero raises at CD0302, and no code from CD0302 on is reported |
| `Inspector.IndentByThree` | codedust.py:183-191 | with the defaults, a line indented by three spaces under an unindented line, other than a blank last line, breaks CD0302 and not CD0303 |
| `Inspector.IndentByEight` | codedust.py:183-191 | with the defaults, a line indented by eight spaces under an unindented non-blank line, other than a blank last line, breaks CD0303 and not CD0302 |
| `Inspector.Reports` | codedust.py:108-218 | a reached check's code is reported if and only if its condition holds and it is switched on |
| `Inspector.EmptyAtStartRule` | codedust.py:110-112 | CD0101 is reported if and only if it is on, there is no previous line and the line is empty |
| `Inspector.EmptyAtEndRule` | codedust.py:114-116 | CD0102 is reported if and only if it is on, there is no next line and the line is empty |
| `Inspector.FinalLineBreakRule` | codedust.py:118-120 | CD0103 is reported if and only if it is on, there is no next line and the line does not end with a line break |
| `Inspector.ConsecutiveEmptyRule` | codedust.py:122-125 | CD0104 is reported if and only if it is on and both the previous and the current line are empty |
| `Inspector.EmptyAfterOpeningRule` | codedust.py:127-129 | CD0105 is reported if and only if it is on, the line is empty and the stripped previous line ends with `{`, `[`, `(` or `<` |
| `Inspector.EmptyBeforeClosingRule` | codedust.py:131-133 | CD0106 is reported if and only if it is on, the line is empty and the stripped next line starts with `}`, `]`, `)` or `>` |
| `Inspector.MultipleSpacesRule` | codedust.py:136-138 | CD0201 is reported if and only if it is on and the stripped line contains two spaces in a row |
| `Inspector.TrailingSpaceRule` | codedust.py:140-142 | CD0202 is reported if and only if it is on and the line ends with a space and a line break |
| `Inspector.SpaceBeforeCommaRule` | codedust.py:144-146 | CD0203 is reported if and only if it is on and the stripped line contains ` ,` |
| `Inspector.SpaceBeforeSemicolonRule` | codedust.py:148-150 | CD0204 is reported if and only if it is on and the stripped line contains ` ;` |
| `Inspector.SpaceAfterOpeningRule` | codedust.py:152-154 | CD0205 is reported if and only if it is on and the stripped line contains `( ` |
| `Inspector.SpaceBeforeClosingRule` | codedust.py:156-158 | CD0206 is reported if and only if it is on and the stripped line contains ` )` |
| `Inspector.SpaceAfterCommaRule` | codedust.py:160-162 | CD0207 is reported if and only if it is on and some comma is directly followed by a word character or `(` |
| `Inspector.SpaceAfterSemicolonRule` | codedust.py:164-166 | CD0208 is reported if and only if it is on and some semicolon is directly followed by a word character or `(` |
| `Inspector.SpaceBeforeEqualsRule` | codedust.py:168-170 | CD0209 is reported if and only if it is on, `=` directly follows a lower-case letter, digit, closing bracket or quote, and the line has no `====` |
| `Inspector.SpaceAfterEqualsRule` | codedust.py:172-174 | CD0210 is reported if and only if it is on, `=` is directly followed by a lower-case letter, digit, opening bracket or quote, and the line has no `====` |
| `Inspector.TabRule` | codedust.py:176-181 | CD0301 is reported if and only if it is on and the line contains a tab |
| `Inspector.IndentWidthRule` | codedust.py:183-185 | CD0302 is reported if and only if it is on and the indentation is not a multiple of the indentation size |
| `Inspector.IndentStepRule` | codedust.py:187-191 | CD0303 is reported if and only if it is on, the previous line is not empty, and the indentation grows by more than one indentation size |
| `Inspector.LineLengthRule` | codedust.py:193-198 | CD0401 is reported if and only if it is on and the line without trailing white space is longer than the maximum |
| `Inspector.HeaderLengthRule` | codedust.py:200-207 | CD0402 is reported if and only if it is on, the line is a section header, and its stripped length differs from the configured length |
| `Inspector.CommentTextSpaceRule` | codedust.py:209-214 | CD0501 is reported if and only if it is on, a non-empty comment marker occurs in a line that is not a header, and the marker followed by a space does not occur |
| `Inspector.CommentLeadSpaceRule` | codedust.py:209-218 | CD0502 is reported if and only if it is on, a non-empty comment marker occurs in a line that is not a header, a space followed by the marker does not occur, and the line does not start with the marker |
| `Scanner.IsOff` | codedust.py:260 | the line contains ` CodeDust: OFF` and a line break; no contract of its own: `StateAtMarkers` and `OffRangeSilenced` state its effect |
| `Scanner.IsOn` | codedust.py:263 | the line contains ` CodeDust: ON` and a line break; no contract of its own: `StateAtMarkers` and `OnLineInspected` state its effect |
| `Scanner.IsSkip` | codedust.py:266 | the line contains ` CodeDust: SKIP` and a line break; no contract of its own: `InspectedMarkers` states its effect |
| `Scanner.InspectorOf` | codedust.py:269 | `inspect_line(pl, cl, nl, rules)` under one rule set; no contract of its own: `InspectFile` calls `InspectLine` and is proved equal to `Scan(InspectorOf(rules), …)` |
| `Scanner.Inspected` | codedust.py:266-267 | line `i` reaches `inspect_line`: it has no `SKIP` and the inspection is on after its markers; no contract of its own: `InspectedMarkers` states when |
| `Scanner.PendingOff` | codedust.py:258-273 | some `OFF` line, without `ON` on it, has no later `ON`; no contract of its own: `StateAtMarkers` ties it to the state variables and `TrailerRule` to the reminder |
| `Scanner.Scan` | codedust.py:248-273 | what `inspect_file` yields for a list of lines; no contract of its own: `InspectFile` is proved equal to it, and `ReportedLines`, `InspectedLinesReported`, `TrailerRule`, `LinesNondecreasing` and `ScanRaises` state it |
| `Scanner.ScanFrom` | codedust.py:258-273 | the rest of the loop from line `i` in a given marker state; no contract of its own: `InspectFile`'s loop invariant ties the loop to it |
| `Scanner.Step` | codedust.py:259-265 | the markers of one line, `OFF` before `ON`; no contract of its own: `StateAtMarkers` and `Quiet` state its effect over many lines |
| `Scanner.StateAt` | codedust.py:254-265 | the two state variables after `n` lines; no contract of its own: `StateAtMarkers` states it, and `InspectFile`'s loop keeps its variables equal to it |
| `Scanner.Silenced` | codedust.py:266-267 | the line is skipped: `SKIP`, or the inspection is off; no contract of its own: `InspectedMarkers` states when |
| `Scanner.Trailer` | codedust.py:272-273 | the reminder, when the remembered `OFF` line is nonzero; no contract of its own: `TrailerRule` states it |
| `Scanner.Prev` | codedust.py:248-252 | the previous raw line that `zip` pairs with a line, `None` on the first; no contract of its own: `ReportedLines` uses it |
| `Scanner.Next` | codedust.py:248-252 | the next raw line that `zip` pairs with a line, `None` on the last; no contract of its own: `ReportedLines` uses it |
| `Scanner.Tag` | codedust.py:269-270 | each issue of a line becomes one triple with that line's number, in order |
| `Scanner.InspectFile` | codedust.py:248-273 | the loop over the lines yields exactly what `Scan` specifies, including the pairs yielded before an exception in `inspect_line`; its loop keeps `code_dust_enabled` and `code_dust_disabled_in_line` equal to `StateAt` of the lines read so far |
| `Scanner.StateAtMarkers` | codedust.py:254-265 | after `n` lines, the inspection is off if and only if an `OFF` (without `ON` on its line) is pending, and if and only if the remembered line is nonzero; the remembered line has `OFF` and not `ON`, and no later line has a marker |
| `Scanner.Quiet` | codedust.py:258-265 | lines without markers leave the state unchanged |
| `Scanner.OffToTheEnd` | codedust.py:258-265 | after a pending `OFF`, the inspection stays off to the end of the file |
| `Scanner.InspectedMarkers` | codedust.py:258-267 | a line is inspected if and only if it has no `SKIP` and no `OFF` is pending once its own markers are read |
| `Scanner.OnLineInspected` | codedust.py:263-267 | a line with `ON` and without `SKIP` is inspected, even after an `OFF` |
| `Scanner.OffRangeSilenced` | codedust.py:258-267 | a line with `OFF` and without `ON`, and every line after it up to the next `ON`, is not inspected |
| `Scanner.EmptyFile` | codedust.py:248-273 | an empty file yields nothing |
| `Scanner.ReportedLines` | codedust.py:248-270 | every issue reported is on an inspected line numbered from 1, and is an issue `inspect_line` finds on that line with the file's raw neighbouring lines |
| `Scanner.InspectedLinesReported` | codedust.py:258-270 | when the scan completes, every issue found on an inspected line is reported with that line's number |
| `Scanner.TrailerAfterIssues` | codedust.py:258-273 | the re-enable reminder's line is greater than the line of every issue |
| `Scanner.LinesNondecreasing` | codedust.py:258-273 | line numbers never decrease along the output |
| `Scanner.TrailerRule` | codedust.py:272-273 | when the scan completes, the reminder is yielded if and only if an `OFF` is pending at the end; it is last, carries the fixed message, and names the `OFF` line |
| `Scanner.ScanRaises` | codedust.py:266-270 | the scan raises if and only if `inspect_line` raises on some inspected line |
| `Scanner.DisabledNeverInFile` | codedust.py:111 | a code switched off is reported on no line of the file |

## Left out

- `parse_args` and `validate_args` (codedust.py:12-65): command-line handling; no hygiene logic.
- Reading the INI file with `configparser` (codedust.py:79-81). The model starts from parsed sections, given as maps from key to string. `LoadRules` requires lower-case keys, which `configparser` guarantees by lower-casing option names.
- `get_files` and `should_ignore` (codedust.py:223-239): walking the directory tree, regex filtering of paths (`re.search` at codedust.py:236) and extension matching (`os.path.splitext` at codedust.py:229).
- Opening and reading the file (codedust.py:242-246). `InspectFile` starts from the list that `readlines()` returns, so the "Cannot read file" exception is not modelled.
- The `__main__` block (codedust.py:278-296): printing, counting and the exit status.
- CD0107, `is_line_comment` and `is_section_header` as functions: they appear in test_codedust.py but not in codedust.py (see below).
- Character classes are ASCII only. Non-ASCII white space, letters and digits are not classified the way Python's `str.isspace`, `str.upper`, `str.lower` and `re`'s `\w` classify them.
- `Text.ParseInt`: accepts an optional sign followed by ASCII digits only. Python's `int()` also accepts surrounding white space, underscores between digits, and non-ASCII decimal digits (`int("٣")` is 3).
- `Rules.RuleSetOf`: gives `None` when a numeric setting is not an integer, or when the comment marker is an integer other than 0. The model does not follow `inspect_line` under such settings. In Python they behave as follows:
  - a non-integer `indent_size` raises `TypeError` at codedust.py:183;
  - a non-integer `max_line_length` raises `TypeError` at codedust.py:196;
  - a non-integer `section_header_length` raises nothing: codedust.py:205 then reports CD0402 on every section header, and the message quotes the value;
  - an integer comment marker other than 0 raises `TypeError` on `len` at codedust.py:211.
- `Rules.Enabled`: compares a toggle with `False` as a boolean. Python's `!= False` also treats `0` as false, but `load_rules` only ever stores booleans under code keys.
- `Inspector.InspectLinePairs`: it ties each pair to its check's message through `Message`. Only the three numeric messages have a lemma stating what the text contains.
- Dictionary insertion order: `load_rules` returns a Python dictionary whose order no caller depends on, so the model uses maps.

## Where the code and its tests disagree

The model follows codedust.py wherever it and test_codedust.py disagree:

- In test_codedust.py:9-16, `is_line_comment` and `is_section_header` are imported. codedust.py defines neither, so the test module cannot import.
- test_codedust.py:270-294 expects a CD0107 issue for an empty line after a section header. codedust.py has no such check.
- test_codedust.py:1030 expects a lone `#` not to be a section header. codedust.py:203 accepts any run of one or more `#`, and `SingleMarkIsHeader` proves the code's behaviour.
- CD0303 fires only when the indentation grows by strictly more than one indentation size (codedust.py:189). A step of exactly one level is accepted; `IndentByEight` and `IndentByThree` show both sides.
- test_codedust.py:84-96 expects exactly one issue, CD0102, for a blank last line after a line of code. codedust.py:131 strips the missing next line and raises `AttributeError`, so the test's `list(...)` raises instead; `BlankLastLine` proves the exception.
- In `__main__`, codedust.py:290 unpacks every item of `inspect_file` into three names. The trailing reminder at codedust.py:273 is a pair, so a file that ends with the inspection switched off makes that loop raise. `Scanner.Report` keeps the two shapes apart.
