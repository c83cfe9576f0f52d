/** Rule resolution: the merge and coercion part of `load_rules` (codedust.py), and the
    typed rule set that `inspect_line` reads. Configuration sections arrive already
    parsed, as maps from key to string value. */
module Rules {
  import opened Wrappers
  import opened Text

  /** A value in a resolved rule dictionary: Python's int, str, bool or None. */
  datatype Value = IntValue(n: int) | StrValue(s: string) | BoolValue(b: bool) | NoneValue

  /** One section of the configuration file, as `configparser` delivers it. */
  type Section = map<string, string>

  /** `static_rules`: the compiled-in defaults. */
  const StaticRules: map<string, Value> := map[
    "indent_size" := IntValue(4),
    "max_line_length" := IntValue(120),
    "section_header_length" := IntValue(100),
    "line_comment" := NoneValue
  ]

  /** `{**base, **section}`: every key of either, the section's value winning. */
  function Layer(base: map<string, Value>, section: Section): (r: map<string, Value>)
    ensures r.Keys == base.Keys + section.Keys
    ensures forall k :: k in section ==> r[k] == StrValue(section[k])
    ensures forall k :: k in base && k !in section ==> r[k] == base[k]
  {
    base + map k | k in section :: StrValue(section[k])
  }

  /** `config[name] if name in config else {}`. */
  function SectionOf(config: map<string, Section>, name: string): Section {
    if name in config then config[name] else map[]
  }

  /** The dictionary `load_rules` holds for extension `ext` before coercing it: the
      static defaults, then the `default` section, then the extension's own section. */
  function Merged(config: map<string, Section>, ext: string): map<string, Value> {
    Layer(Layer(StaticRules, SectionOf(config, "default")), SectionOf(config, ext))
  }

  /** `re.match(r"CD[0-9]{4}", key.upper())`: a prefix match, so `cd0101x` qualifies. */
  predicate IsRuleCode(key: string) {
    var u := Upper(key);
    |u| >= 6 && u[0] == 'C' && u[1] == 'D' &&
    IsDigit(u[2]) && IsDigit(u[3]) && IsDigit(u[4]) && IsDigit(u[5])
  }

  /** The key an entry is stored under after resolution. */
  function NormalKey(key: string): string {
    if IsRuleCode(key) then Upper(key) else key
  }

  function NormalKeys(keys: set<string>): set<string> {
    set k | k in keys :: NormalKey(k)
  }

  /** The boolean a rule-code entry becomes: false only for a value that lower-cases to
      `disable`. */
  function Toggle(v: Value): bool {
    !(v.StrValue? && Lower(v.s) == "disable")
  }

  /** `int(v)` where it succeeds, `v` unchanged where it raises. */
  function CoerceInt(v: Value): Value {
    match v
    case StrValue(s) => (match ParseInt(s) case Some(n) => IntValue(n) case None => v)
    case BoolValue(b) => IntValue(if b then 1 else 0)
    case _ => v
  }

  /** The value an entry is stored with after resolution. */
  function NormalValue(key: string, v: Value): Value {
    if IsRuleCode(key) then BoolValue(Toggle(v)) else CoerceInt(v)
  }

  /** `r` is what the coercion loop of `load_rules` turns `m` into: every key of `m` is
      stored under its normal key with its normal value, and nothing else is stored. */
  ghost predicate ResolvedFrom(r: map<string, Value>, m: map<string, Value>) {
    && r.Keys == NormalKeys(m.Keys)
    && forall k :: k in m ==> r[NormalKey(k)] == NormalValue(k, m[k])
  }

  /** No two rule-code keys of `m` differ only in letter case. */
  ghost predicate NoCaseClash(m: map<string, Value>) {
    forall a, b :: a in m && b in m && IsRuleCode(a) && IsRuleCode(b) && Upper(a) == Upper(b) ==> a == b
  }

  /** Every key of every section is free of upper-case letters, which `configparser`
      guarantees by lower-casing option names. */
  predicate LowerCaseKeys(config: map<string, Section>) {
    forall name, k :: name in config && k in config[name] ==> NoUpperLetters(k)
  }

  lemma StaticKeysAreSettings()
    ensures forall k :: k in StaticRules ==> !IsRuleCode(k)
  {
    assert Upper("indent_size")[0] == 'I';
    assert Upper("max_line_length")[0] == 'M';
    assert Upper("section_header_length")[0] == 'S';
    assert Upper("line_comment")[0] == 'L';
  }

  /** Upper-casing a rule code gives a rule code that upper-casing leaves alone. */
  lemma RuleCodeUpper(k: string)
    requires IsRuleCode(k)
    ensures IsRuleCode(Upper(k)) && Upper(Upper(k)) == Upper(k)
  {
    UpperIdempotent(k);
  }

  /** Every rule-code key of a merged dictionary comes from a configuration section. */
  lemma MergedRuleCodesFromSections(config: map<string, Section>, ext: string, k: string)
    requires k in Merged(config, ext) && IsRuleCode(k)
    ensures k in SectionOf(config, "default") || k in SectionOf(config, ext)
  {
    StaticKeysAreSettings();
  }

  lemma MergedNoCaseClash(config: map<string, Section>, ext: string)
    requires LowerCaseKeys(config)
    ensures NoCaseClash(Merged(config, ext))
  {
    var m := Merged(config, ext);
    forall a, b | a in m && b in m && IsRuleCode(a) && IsRuleCode(b) && Upper(a) == Upper(b)
      ensures a == b
    {
      MergedRuleCodesFromSections(config, ext, a);
      MergedRuleCodesFromSections(config, ext, b);
      UpperInjective(a, b);
    }
  }

  /** A rule code and any other key of a clash-free dictionary have different normal
      keys, and a setting's normal key is never the normal key of a rule code. */
  lemma NormalKeysApart(m: map<string, Value>, a: string, b: string)
    requires NoCaseClash(m) && a in m && b in m && a != b
    ensures NormalKey(a) != NormalKey(b)
    ensures IsRuleCode(a) ==> Upper(a) != b
  {
    if IsRuleCode(a) {
      RuleCodeUpper(a);
    }
    if IsRuleCode(b) {
      RuleCodeUpper(b);
    }
  }

  /** The state of the coercion loop with the keys `pending` of the original key list
      still to visit: visited keys are resolved, pending keys are untouched. */
  ghost predicate PartlyResolved(rules: map<string, Value>, merged: map<string, Value>, pending: set<string>) {
    && pending <= merged.Keys
    && (forall k :: k in pending ==> k in rules && rules[k] == merged[k])
    && (forall k :: k in merged && k !in pending ==>
          NormalKey(k) in rules && rules[NormalKey(k)] == NormalValue(k, merged[k]))
    && rules.Keys == NormalKeys(merged.Keys - pending) + pending
  }

  lemma NormalKeysStep(merged: map<string, Value>, pending: set<string>, rule: string)
    requires rule in pending && pending <= merged.Keys
    ensures NormalKeys(merged.Keys - (pending - {rule})) == NormalKeys(merged.Keys - pending) + {NormalKey(rule)}
  {
    assert merged.Keys - (pending - {rule}) == (merged.Keys - pending) + {rule};
  }

  /** The upper-cased key of a rule code clashes with no other key of a clash-free
      dictionary, either as it stands or normalised. */
  lemma RuleCodeApart(merged: map<string, Value>, rule: string, k: string)
    requires NoCaseClash(merged) && rule in merged && k in merged && k != rule && IsRuleCode(rule)
    ensures NormalKey(k) != Upper(rule) && Upper(rule) != k && NormalKey(k) != rule
  {
    NormalKeysApart(merged, rule, k);
    NormalKeysApart(merged, k, rule);
  }

  /** The keys after visiting a rule code. */
  lemma RuleCodeKeys(rules: map<string, Value>, merged: map<string, Value>,
                     pending: set<string>, rule: string, next: map<string, Value>)
    requires NoCaseClash(merged) && PartlyResolved(rules, merged, pending)
    requires rule in pending && IsRuleCode(rule)
    requires next == (rules - {rule})[Upper(rule) := BoolValue(Toggle(rules[rule]))]
    ensures next.Keys == NormalKeys(merged.Keys - (pending - {rule})) + (pending - {rule})
  {
    NormalKeysStep(merged, pending, rule);
    assert NormalKey(rule) == Upper(rule);
    forall k | k in merged.Keys - pending
      ensures NormalKey(k) != rule
    {
      RuleCodeApart(merged, rule, k);
    }
    forall k | k in pending - {rule}
      ensures k != Upper(rule)
    {
      RuleCodeApart(merged, rule, k);
    }
    assert next.Keys == rules.Keys - {rule} + {Upper(rule)};
  }

  /** Visiting a rule-code key: pop it and store its boolean under the upper-cased key. */
  lemma {:induction false} VisitRuleCode(rules: map<string, Value>, merged: map<string, Value>,
                                         pending: set<string>, rule: string, next: map<string, Value>)
    requires NoCaseClash(merged) && PartlyResolved(rules, merged, pending)
    requires rule in pending && IsRuleCode(rule)
    requires next == (rules - {rule})[Upper(rule) := BoolValue(Toggle(rules[rule]))]
    ensures PartlyResolved(next, merged, pending - {rule})
  {
    var rest := pending - {rule};
    forall k | k in rest
      ensures k in next && next[k] == merged[k]
    {
      RuleCodeApart(merged, rule, k);
    }
    forall k | k in merged && k !in rest
      ensures NormalKey(k) in next && next[NormalKey(k)] == NormalValue(k, merged[k])
    {
      if k != rule {
        RuleCodeApart(merged, rule, k);
        assert next[NormalKey(k)] == rules[NormalKey(k)];
      }
    }
    RuleCodeKeys(rules, merged, pending, rule, next);
  }

  /** Visiting a setting: replace its value by `int(value)` where that succeeds. */
  lemma {:induction false} VisitSetting(rules: map<string, Value>, merged: map<string, Value>,
                                        pending: set<string>, rule: string, next: map<string, Value>)
    requires NoCaseClash(merged) && PartlyResolved(rules, merged, pending)
    requires rule in pending && !IsRuleCode(rule)
    requires next == rules[rule := CoerceInt(rules[rule])]
    ensures PartlyResolved(next, merged, pending - {rule})
  {
    var rest := pending - {rule};
    forall k | k in rest
      ensures k in next && next[k] == merged[k]
    {
      assert k != rule;
    }
    forall k | k in merged && k !in rest
      ensures NormalKey(k) in next && next[NormalKey(k)] == NormalValue(k, merged[k])
    {
      if k != rule {
        NormalKeysApart(merged, k, rule);
        assert next[NormalKey(k)] == rules[NormalKey(k)];
      }
    }
    NormalKeysStep(merged, pending, rule);
    assert next.Keys == rules.Keys;
  }

  /** Before the loop nothing has been visited. */
  lemma NothingResolved(merged: map<string, Value>)
    ensures PartlyResolved(merged, merged, merged.Keys)
  {
    assert merged.Keys - merged.Keys == {};
  }

  /** After the loop every key has been visited. */
  lemma AllResolved(rules: map<string, Value>, merged: map<string, Value>)
    requires PartlyResolved(rules, merged, {})
    ensures ResolvedFrom(rules, merged)
  {
    assert merged.Keys - {} == merged.Keys;
  }

  /** The loop of `load_rules` over one extension's dictionary: each key of the original
      key list is visited once; a rule code is popped and re-inserted upper-cased with a
      boolean, any other value is replaced by `int(value)` where that succeeds. */
  method CoerceRules(merged: map<string, Value>) returns (rules: map<string, Value>)
    requires NoCaseClash(merged)
    ensures ResolvedFrom(rules, merged)
  {
    rules := merged;
    var pending := rules.Keys;
    NothingResolved(merged);
    while pending != {}
      invariant PartlyResolved(rules, merged, pending)
      decreases |pending|
    {
      var rule :| rule in pending;
      ghost var before := rules;
      if IsRuleCode(rule) {
        var value := rules[rule];
        rules := rules - {rule};
        rules := rules[Upper(rule) := BoolValue(Toggle(value))];
        VisitRuleCode(before, merged, pending, rule, rules);
      } else {
        rules := rules[rule := CoerceInt(rules[rule])];
        VisitSetting(before, merged, pending, rule, rules);
      }
      pending := pending - {rule};
    }
    AllResolved(rules, merged);
  }

  /** `load_rules` from already-parsed sections: for every extension, layer the defaults,
      the `default` section and the extension's section, then coerce the result. */
  method LoadRules(config: map<string, Section>, extensions: seq<string>)
    returns (perExtension: map<string, map<string, Value>>)
    requires LowerCaseKeys(config)
    ensures perExtension.Keys == set e | e in extensions
    ensures forall e :: e in extensions ==> ResolvedFrom(perExtension[e], Merged(config, e))
  {
    var defaultRules := Layer(StaticRules, SectionOf(config, "default"));
    perExtension := map[];
    for i := 0 to |extensions|
      invariant perExtension.Keys == set e | e in extensions[..i]
      invariant forall e :: e in extensions[..i] ==> ResolvedFrom(perExtension[e], Merged(config, e))
    {
      var ext := extensions[i];
      MergedNoCaseClash(config, ext);
      var rules := CoerceRules(Layer(defaultRules, SectionOf(config, ext)));
      perExtension := perExtension[ext := rules];
    }
    assert extensions[..|extensions|] == extensions;
  }

  /** The rule set `inspect_line` reads: the three numeric settings, the line comment
      marker and the rule-code toggles. */
  datatype RuleSet = RuleSet(
    indentSize: int,
    maxLineLength: int,
    sectionHeaderLength: int,
    lineComment: Option<string>,
    toggles: map<string, bool>)

  /** `rules.get(code) != False`: a code is on unless its entry is `False`. */
  predicate Enabled(rules: RuleSet, code: string) {
    code !in rules.toggles || rules.toggles[code]
  }

  /** The same rule set with `code` switched off. */
  function Disable(rules: RuleSet, code: string): RuleSet {
    rules.(toggles := rules.toggles[code := false])
  }

  /** The typed view of a resolved dictionary. A comment marker that `int()` turned into
      `0` is false in `inspect_line`'s test, as `None` is, so it becomes no marker. The view
      is `None` when a numeric setting is not an integer or the comment marker is another
      integer; `inspect_line` under such a dictionary is not modelled. */
  function RuleSetOf(r: map<string, Value>): (rs: Option<RuleSet>)
    ensures rs.Some? ==> forall code :: Enabled(rs.value, code) <==> !(code in r && r[code] == BoolValue(false))
    ensures rs.Some? ==> "line_comment" in r && (rs.value.lineComment.None? <==> r["line_comment"] in {NoneValue, IntValue(0)})
  {
    if && "indent_size" in r && r["indent_size"].IntValue?
       && "max_line_length" in r && r["max_line_length"].IntValue?
       && "section_header_length" in r && r["section_header_length"].IntValue?
       && "line_comment" in r
       && (r["line_comment"].StrValue? || r["line_comment"].NoneValue? || r["line_comment"] == IntValue(0))
    then
      Some(RuleSet(
        r["indent_size"].n,
        r["max_line_length"].n,
        r["section_header_length"].n,
        if r["line_comment"].StrValue? then Some(r["line_comment"].s) else None,
        map k | k in r && r[k].BoolValue? :: r[k].b))
    else None
  }

  /** Resolution determines its result: two dictionaries resolved from the same merged
      dictionary are equal. */
  lemma ResolvedUnique(r1: map<string, Value>, r2: map<string, Value>, m: map<string, Value>)
    requires ResolvedFrom(r1, m) && ResolvedFrom(r2, m)
    ensures r1 == r2
  {
    forall x | x in r1
      ensures x in r2 && r1[x] == r2[x]
    {
      var k :| k in m && NormalKey(k) == x;
    }
  }

  /** A setting is not a toggle: coercion never produces a boolean. */
  lemma CoerceIntNotBool(v: Value)
    ensures !CoerceInt(v).BoolValue?
  {
  }

  /** A code is enabled in the resolved rule set exactly when no rule-code key of the
      merged dictionary that upper-cases to it holds a value lower-casing to `disable`;
      a code nobody configured is enabled. */
  lemma ResolvedToggle(r: map<string, Value>, m: map<string, Value>, code: string)
    requires ResolvedFrom(r, m) && RuleSetOf(r).Some?
    ensures Enabled(RuleSetOf(r).value, code) <==>
            forall k :: k in m && IsRuleCode(k) && Upper(k) == code ==> Toggle(m[k])
  {
    if !Enabled(RuleSetOf(r).value, code) {
      assert code in r && r[code] == BoolValue(false);
      var k :| k in m && NormalKey(k) == code;
      CoerceIntNotBool(m[k]);
      assert IsRuleCode(k) && !Toggle(m[k]);
    } else {
      forall k | k in m && IsRuleCode(k) && Upper(k) == code
        ensures Toggle(m[k])
      {
        assert NormalKey(k) == code && r[code] == BoolValue(Toggle(m[k]));
      }
    }
  }

  lemma StaticValuesCoerce()
    ensures forall k :: k in StaticRules ==> CoerceInt(StaticRules[k]) == StaticRules[k]
    ensures forall k :: k in StaticRules ==> !StaticRules[k].BoolValue?
  {
  }

  lemma MergedWithoutConfig(ext: string)
    ensures Merged(map[], ext) == StaticRules
  {
    assert SectionOf(map[], ext) == map[] && SectionOf(map[], "default") == map[];
  }

  lemma ResolvedStatic(r: map<string, Value>)
    requires ResolvedFrom(r, StaticRules)
    ensures r == StaticRules
  {
    StaticKeysAreSettings();
    StaticValuesCoerce();
    assert forall k :: k in StaticRules ==> NormalKey(k) == k;
    assert r.Keys == StaticRules.Keys;
  }

  lemma RuleSetOfStatic()
    ensures RuleSetOf(StaticRules) == Some(RuleSet(4, 120, 100, None, map[]))
  {
    var r := StaticRules;
    assert "indent_size" in r && r["indent_size"] == IntValue(4);
    assert "max_line_length" in r && r["max_line_length"] == IntValue(120);
    assert "section_header_length" in r && r["section_header_length"] == IntValue(100);
    assert "line_comment" in r && r["line_comment"] == NoneValue;
    assert RuleSetOf(r).Some?;
    assert RuleSetOf(r).value.toggles == map[] by {
      StaticValuesCoerce();
    }
  }

  /** Without a configuration file every extension gets the static defaults and no
      toggle, so every rule is on. */
  lemma DefaultRuleSet(r: map<string, Value>, ext: string)
    requires ResolvedFrom(r, Merged(map[], ext))
    ensures RuleSetOf(r) == Some(RuleSet(4, 120, 100, None, map[]))
  {
    MergedWithoutConfig(ext);
    ResolvedStatic(r);
    RuleSetOfStatic();
  }

  /** A setting ends up as `int()` of the value from the last layer that has it, or as
      that value's string where `int()` fails; a default that no section overrides is
      kept as it is. */
  lemma ResolvedSetting(config: map<string, Section>, ext: string, r: map<string, Value>, key: string)
    requires ResolvedFrom(r, Merged(config, ext))
    requires !IsRuleCode(key) && key in Merged(config, ext)
    ensures key in r
    ensures key in SectionOf(config, ext) ==> r[key] == CoerceInt(StrValue(SectionOf(config, ext)[key]))
    ensures key !in SectionOf(config, ext) && key in SectionOf(config, "default") ==>
              r[key] == CoerceInt(StrValue(SectionOf(config, "default")[key]))
    ensures key !in SectionOf(config, ext) && key !in SectionOf(config, "default") ==>
              key in StaticRules && r[key] == StaticRules[key]
  {
    var m := Merged(config, ext);
    assert NormalKey(key) == key;
    assert r[key] == CoerceInt(m[key]);
    StaticValuesCoerce();
  }

  /** How values coerce: a numeral becomes an int (so a comment marker `0` becomes the
      integer 0), anything else stays a string, and only `disable`, in any letter case,
      turns a rule off. */
  lemma CoercionExamples()
    ensures CoerceInt(StrValue("80")) == IntValue(80)
    ensures CoerceInt(StrValue("-2")) == IntValue(-2)
    ensures CoerceInt(StrValue("0")) == IntValue(0)
    ensures CoerceInt(StrValue("#")) == StrValue("#")
    ensures CoerceInt(NoneValue) == NoneValue
    ensures Toggle(StrValue("false")) && !Toggle(StrValue("Disable"))
  {
    assert "80"[..1] == "8";
    assert ParseDigits("80") == 80;
    assert "-2"[1..] == "2";
    assert ParseDigits("2") == 2;
    assert ParseDigits("0") == 0;
    assert Lower("Disable") == "disable";
    assert Lower("false") != "disable";
  }
}
