/** The per-query rule engine of the DNS server (lib/devdnsd/server.rb):
    which record types a rule is tried for, how its reply is computed, how
    an answer is finalised, and how a query falls to NXDOMAIN.

    The pure functions below (ExecuteRule, FinalizeReplySpec,
    ProcessRuleSpec, RunClassesWith, RunRules, HandleQuerySpec) state what the
    code computes on values; the methods at the end do it step by step on
    `Rule` and `Transaction` objects, as the code does, and are proved to
    agree with them. */
module Server {
  import opened Base
  import opened Text
  import opened Records
  import opened Rules

  /** Default TTL, in seconds, of an answer (the TTL field of section 3.2.1 of
      RFC 1035). */
  const DefaultTtl: int := 300

  /** Default MX preference (section 3.3.9 of RFC 1035). */
  const DefaultPreference: int := 10

  /** RCODE 3, "name error" (section 4.1.1 of RFC 1035). */
  const NXDomain: nat := 3

  /** `Resolv::DNS::Name`: its labels and whether it ends with a dot. */
  datatype DomainName = DomainName(labels: seq<string>, absolute: bool)

  /** The record data of an answer: the reply as given (A and AAAA) or as a
      domain name (every other type). */
  datatype AnswerData = Address(value: Value) | Name(name: DomainName)

  /** The options hash passed with an answer: the rule's remaining options,
      then `resource_class` and `ttl`. */
  datatype ReplyOptions = ReplyOptions(extra: map<string, OptionValue>, resourceClass: RecordType, ttl: int)

  /** The arguments of one `transaction.respond!` call. */
  datatype Answer = Answer(preference: Option<int>, data: AnswerData, options: ReplyOptions)

  /** `Resolv::DNS::Name.create`: a string becomes the runs of characters
      between its dots, absolute when it ends with a dot; any other value
      raises ArgumentError. */
  function NameCreate(v: Value): Result<DomainName>
  {
    if v.Str? then Ok(DomainName(NonEmpty(Split(v.s, '.')), v.s != [] && v.s[|v.s| - 1] == '.'))
    else Err(BadArgument)
  }

  lemma {:induction false} JoinAppendEmpty(parts: seq<string>, sep: char)
    requires |parts| >= 1
    ensures Join(parts + [[]], sep) == Join(parts, sep) + [sep]
  {
    if |parts| == 1 {
      assert parts + [[]] == [parts[0], []];
    } else {
      assert (parts + [[]])[1..] == parts[1..] + [[]];
      JoinAppendEmpty(parts[1..], sep);
    }
  }

  lemma {:induction false} NonEmptyKeeps(parts: seq<string>)
    requires forall i :: 0 <= i < |parts| ==> parts[i] != []
    ensures NonEmpty(parts) == parts
    ensures NonEmpty(parts + [[]]) == parts
  {
    if parts != [] {
      assert (parts + [[]])[1..] == parts[1..] + [[]];
      NonEmptyKeeps(parts[1..]);
    }
  }

  /** Writing the labels of a name with dots between them, and a final dot
      for an absolute name, gives a string that `Name.create` converts back
      to that name. */
  lemma NameCreateRoundTrip(labels: seq<string>, absolute: bool)
    requires |labels| >= 1
    requires forall i :: 0 <= i < |labels| ==> labels[i] != [] && '.' !in labels[i]
    ensures NameCreate(Str(Join(labels, '.') + if absolute then "." else "")) == Ok(DomainName(labels, absolute))
  {
    var text := Join(labels, '.') + if absolute then "." else "";
    if absolute {
      AbsoluteNameLabels(labels);
      assert text[|text| - 1] == '.';
    } else {
      RelativeNameLabels(labels);
      assert text == Join(labels, '.');
    }
    assert NonEmpty(Split(text, '.')) == labels;
  }

  lemma AbsoluteNameLabels(labels: seq<string>)
    requires |labels| >= 1
    requires forall i :: 0 <= i < |labels| ==> labels[i] != [] && '.' !in labels[i]
    ensures NonEmpty(Split(Join(labels, '.') + ".", '.')) == labels
  {
    JoinAppendEmpty(labels, '.');
    var parts := labels + [[]];
    assert forall i :: 0 <= i < |parts| ==> '.' !in parts[i] by {
      forall i | 0 <= i < |parts| ensures '.' !in parts[i] {
        if i < |labels| { assert parts[i] == labels[i]; }
      }
    }
    SplitJoin(parts, '.');
    NonEmptyKeeps(labels);
  }

  lemma RelativeNameLabels(labels: seq<string>)
    requires |labels| >= 1
    requires forall i :: 0 <= i < |labels| ==> labels[i] != [] && '.' !in labels[i]
    ensures NonEmpty(Split(Join(labels, '.'), '.')) == labels
    ensures var text := Join(labels, '.'); text != [] && text[|text| - 1] != '.'
  {
    SplitJoin(labels, '.');
    NonEmptyKeeps(labels);
    var text := Join(labels, '.');
    var last := labels[|labels| - 1];
    JoinEndsWithLast(labels, '.');
    assert text[|text| - 1] == last[|last| - 1];
    assert last[|last| - 1] in last;
  }

  lemma {:induction false} JoinEndsWithLast(parts: seq<string>, sep: char)
    requires |parts| >= 1
    ensures |Join(parts, sep)| >= |parts[|parts| - 1]|
    ensures Join(parts, sep)[|Join(parts, sep)| - |parts[|parts| - 1]|..] == parts[|parts| - 1]
  {
    if |parts| > 1 {
      JoinEndsWithLast(parts[1..], sep);
    }
  }

  /** Lazier's `to_integer(default)` on an option value: an integer is kept,
      anything else (or a missing value) gives the default. */
  function ToInteger(v: Option<OptionValue>, default: int): int
  {
    if v.Some? && v.value.Num? then v.value.n else default
  }

  function Lookup(options: map<string, OptionValue>, key: string): Option<OptionValue>
  {
    if key in options then Some(options[key]) else None
  }

  /** `validate_ttl` (lib/devdnsd/server.rb:113-116). */
  function ValidateTtl(current: Option<OptionValue>): (ttl: int)
    ensures ttl > 0
    ensures ttl == if current.Some? && current.value.Num? && current.value.n > 0 then current.value.n else DefaultTtl
  {
    var c := ToInteger(current, 0);
    if c > 0 then c else DefaultTtl
  }

  /** `reply.gsub("$", "\\")`: every dollar sign becomes a backslash, so that
      `$1` in a reply becomes the group reference `\1` of the substitution
      template. */
  function DollarsToBackslashes(s: string): (r: string)
    ensures |r| == |s|
    ensures '$' !in r
    ensures forall i :: 0 <= i < |s| && s[i] != '$' ==> r[i] == s[i]
    ensures forall i :: 0 <= i < |s| && s[i] == '$' ==> r[i] == '\\'
  {
    if s == [] then []
    else [if s[0] == '$' then '\\' else s[0]] + DollarsToBackslashes(s[1..])
  }

  /** The reply before substitution: the block's result when there is a
      block, the static reply otherwise (lib/devdnsd/server.rb:93). */
  function RawReply(st: RuleState, sym: string, md: Option<MatchData>, q: Query): Value
  {
    if st.block.Some? then st.block.value(md, sym, q) else st.reply
  }

  /** `execute_rule` (lib/devdnsd/server.rb:92-96). A truthy reply of a
      regular-expression rule that has match data with a group 0 is
      expanded by substituting the pattern in group 0, the reply's `$`
      turned into `\`; a reply that is not a string has no `gsub` and raises
      NoMethodError. */
  function ExecuteRule(engine: RegexEngine, st: RuleState, sym: string, md: Option<MatchData>, q: Query): Result<Value>
  {
    var reply := RawReply(st, sym, md, q);
    if st.pattern.Re? && reply.Truthy() && md.Some? && md.value.Whole().Some? then
      if reply.Str? then Ok(Str(engine.gsub(md.value.Whole().value, st.pattern.regex, DollarsToBackslashes(reply.s))))
      else Err(NoMethod)
    else Ok(reply)
  }

  /** The result of finalising one reply, and the rule's options after it. */
  datatype Finalized = Finalized(answer: Result<Answer>, options: map<string, OptionValue>)

  datatype Prepared = Prepared(result: ReplyOptions, options: map<string, OptionValue>)

  /** `prepare_reply_options` (lib/devdnsd/server.rb:108-110): `:ttl` is
      deleted from the rule's options and validated; the remaining options
      are merged with `resource_class` and `ttl`, which win over keys of the
      same name. The symbol `symbol_to_resource_class` converts here is
      always the symbol of the class being answered, so it gives that class
      back (Records.SymbolRoundTrip); the model passes the class itself. */
  function PrepareReplyOptionsSpec(options: map<string, OptionValue>, t: RecordType): Prepared
  {
    var ttl := ValidateTtl(Lookup(options, "ttl"));
    var remaining := options - {"ttl"};
    Prepared(ReplyOptions(remaining - {"resource_class"}, t, ttl), remaining)
  }

  /** `finalize_reply` (lib/devdnsd/server.rb:99-105). For MX the
      `:priority` option is deleted from the rule and becomes the
      preference; the reply is kept raw for A and AAAA and converted to a
      domain name otherwise, which raises for a reply that is not a string
      after `:priority` is already gone. */
  function FinalizeReplySpec(reply: Value, options: map<string, OptionValue>, t: RecordType): Finalized
  {
    var preference := if t == MX then Some(ToInteger(Lookup(options, "priority"), DefaultPreference)) else None;
    var kept := if t == MX then options - {"priority"} else options;
    var data: Result<AnswerData> :=
      if t == A || t == AAAA then Ok(Address(reply))
      else
        var name := NameCreate(reply);
        if name.Ok? then Ok(Name(name.value)) else Err(name.error);
    if data.Err? then Finalized(Err(data.error), kept)
    else
      var prepared := PrepareReplyOptionsSpec(kept, t);
      Finalized(Ok(Answer(preference, data.value, prepared.result)), prepared.options)
  }

  /** What `process_rule` did for one (rule, type) pair. */
  datatype Outcome =
    | Skipped              // `match_host` was falsy: `process_rule` not called
    | Responded(answer: Answer)
    | ReturnedFalse
    | ReturnedNil
    | Raised(error: Error)

  /** The answers an outcome sends. */
  function Emitted(o: Outcome): seq<Answer>
  {
    if o.Responded? then [o.answer] else []
  }

  datatype Step = Step(outcome: Outcome, state: RuleState)

  /** `process_rule` with `perform_process_rule`
      (lib/devdnsd/server.rb:40-49,83-89): the reply is computed with the
      type's symbol, and only a truthy reply is finalised and sent. */
  function ProcessRuleSpec(engine: RegexEngine, st: RuleState, t: RecordType, md: Option<MatchData>, q: Query): Step
  {
    var reply := ExecuteRule(engine, st, Symbol(t), md, q);
    if reply.Err? then Step(Raised(reply.error), st)
    else if reply.value.Truthy() then
      var f := FinalizeReplySpec(reply.value, st.options, t);
      Step(if f.answer.Ok? then Responded(f.answer.value) else Raised(f.answer.error), st.(options := f.options))
    else if reply.value.False? then Step(ReturnedFalse, st)
    else Step(ReturnedNil, st)
  }

  /** One iteration of the loop of `process_rule_in_classes`
      (lib/devdnsd/server.rb:62-65): the rule is processed for type `t` when
      `match_host` is truthy, with the match data only for a regular
      expression. */
  function ClassStep(engine: RegexEngine, st: RuleState, t: RecordType, text: string, q: Query): Step
  {
    var matches := MatchHostOf(engine, st.pattern, text);
    if matches.Truthy() then ProcessRuleSpec(engine, st, t, if st.pattern.Re? then matches.data else None, q)
    else Step(Skipped, st)
  }

  /** The answers sent while processing one rule, the rule afterwards, and
      the exception that stopped the processing, if any. */
  datatype Run = Run(answers: seq<Answer>, state: RuleState, error: Option<Error>)

  /** Processing a rule for each type in turn with `step`; an exception
      stops the loop, the answers sent before it stay sent. */
  function RunClassesWith(step: (RuleState, RecordType) -> Step, st: RuleState, ts: seq<RecordType>): Run
    decreases |ts|
  {
    if ts == [] then Run([], st, None)
    else
      var s := step(st, ts[0]);
      if s.outcome.Raised? then Run([], s.state, Some(s.outcome.error))
      else
        var rest := RunClassesWith(step, s.state, ts[1..]);
        Run(Emitted(s.outcome) + rest.answers, rest.state, rest.error)
  }

  function ClassStepper(engine: RegexEngine, text: string, q: Query): (RuleState, RecordType) -> Step
  {
    (st: RuleState, t: RecordType) => ClassStep(engine, st, t, text, q)
  }

  /** `process_rule_in_classes` (lib/devdnsd/server.rb:56-67). */
  function RuleInClassesSpec(engine: RegexEngine, st: RuleState, text: string, q: Query): Run
  {
    var rc := ResourceClassOf(st.types);
    if rc.Err? then Run([], st, Some(rc.error))
    else RunClassesWith(ClassStepper(engine, text, q), st, TriedClasses(rc.value.AsList(), q.resourceClass))
  }

  /** The answers of a whole rule list, the rules afterwards, and the
      exception that stopped the query, if any. */
  datatype RulesRun = RulesRun(answers: seq<Answer>, states: seq<RuleState>, error: Option<Error>)

  /** Processing every rule in order with `process`; an exception stops the
      rest. */
  function RunRulesWith(process: RuleState -> Run, sts: seq<RuleState>): (r: RulesRun)
    ensures |r.states| == |sts|
  {
    if sts == [] then RulesRun([], [], None)
    else
      var first := process(sts[0]);
      if first.error.Some? then RulesRun(first.answers, [first.state] + sts[1..], first.error)
      else
        var rest := RunRulesWith(process, sts[1..]);
        RulesRun(first.answers + rest.answers, [first.state] + rest.states, rest.error)
  }

  function RuleProcessor(engine: RegexEngine, text: string, q: Query): RuleState -> Run
  {
    (st: RuleState) => RuleInClassesSpec(engine, st, text, q)
  }

  /** `config.rules.each { |rule| process_rule_in_classes(...) }`
      (lib/devdnsd/server.rb:22). */
  function RunRules(engine: RegexEngine, sts: seq<RuleState>, text: string, q: Query): RulesRun
  {
    RunRulesWith(RuleProcessor(engine, text, q), sts)
  }

  datatype QueryResult = QueryResult(
    answers: seq<Answer>,
    states: seq<RuleState>,
    failure: Option<nat>,
    error: Option<Error>)

  /** The server's handling of one query (lib/devdnsd/server.rb:20-26): the
      handler `match(/.+/, ANY_CLASSES)` runs the rules on the text `/.+/`
      matched, and a query it does not match gets NXDOMAIN from
      `otherwise`. */
  function HandleQuerySpec(engine: RegexEngine, sts: seq<RuleState>, q: Query): QueryResult
  {
    var md := CatchAllFind(q.name);
    if md.None? || q.resourceClass !in AnyClasses then QueryResult([], sts, Some(NXDomain), None)
    else
      var r := RunRules(engine, sts, md.value.Whole().value, q);
      QueryResult(r.answers, r.states, None, r.error)
  }

  // ---------------------------------------------------------------------
  // Properties of the specification

  /** With a block, the block's result is the reply and the static reply is
      never consulted. */
  lemma BlockTakesPrecedence(engine: RegexEngine, st: RuleState, other: Value, sym: string, md: Option<MatchData>, q: Query)
    requires st.block.Some?
    ensures RawReply(st, sym, md, q) == st.block.value(md, sym, q)
    ensures ExecuteRule(engine, st, sym, md, q) == ExecuteRule(engine, st.(reply := other), sym, md, q)
  {
  }

  /** Substitution happens only for a regular-expression rule with a truthy
      reply and match data holding group 0; otherwise the reply is returned
      as computed. When it happens the template holds no `$`. */
  lemma SubstitutionConditions(engine: RegexEngine, st: RuleState, sym: string, md: Option<MatchData>, q: Query)
    ensures !(st.pattern.Re? && md.Some? && md.value.Whole().Some?) ==>
      ExecuteRule(engine, st, sym, md, q) == Ok(RawReply(st, sym, md, q))
    ensures !RawReply(st, sym, md, q).Truthy() ==> ExecuteRule(engine, st, sym, md, q) == Ok(RawReply(st, sym, md, q))
    ensures ExecuteRule(engine, st, sym, md, q).Ok? && ExecuteRule(engine, st, sym, md, q) != Ok(RawReply(st, sym, md, q)) ==>
      exists template :: '$' !in template && RawReply(st, sym, md, q).Str? &&
        |template| == |RawReply(st, sym, md, q).s| &&
        ExecuteRule(engine, st, sym, md, q) == Ok(Str(engine.gsub(md.value.Whole().value, st.pattern.regex, template)))
  {
    var reply := RawReply(st, sym, md, q);
    if st.pattern.Re? && reply.Truthy() && md.Some? && md.value.Whole().Some? && reply.Str? {
      var template := DollarsToBackslashes(reply.s);
      assert ExecuteRule(engine, st, sym, md, q) == Ok(Str(engine.gsub(md.value.Whole().value, st.pattern.regex, template)));
    }
  }

  /** `process_rule` responds exactly once when the reply is truthy (unless
      finalising it raises), returns `false` for a `false` reply and `nil`
      for a `nil` reply, and then leaves the rule as it was. */
  lemma ProcessRuleOutcomes(engine: RegexEngine, st: RuleState, t: RecordType, md: Option<MatchData>, q: Query)
    requires ExecuteRule(engine, st, Symbol(t), md, q).Ok?
    ensures var reply := ExecuteRule(engine, st, Symbol(t), md, q).value;
      var step := ProcessRuleSpec(engine, st, t, md, q);
      (step.outcome.Responded? ==> reply.Truthy()) &&
      (step.outcome == ReturnedFalse <==> reply == False) &&
      (step.outcome == ReturnedNil <==> reply == Nil) &&
      (!reply.Truthy() ==> step.state == st) &&
      (reply.Truthy() && (t == A || t == AAAA) ==> step.outcome.Responded?) &&
      (reply.Truthy() && reply.Str? ==> step.outcome.Responded?)
  {
    SymbolRoundTrip(t);
  }

  /** A finalised answer: the MX preference is the integer `:priority`
      option or 10, and only MX answers have one; the value is raw for A and
      AAAA and a domain name otherwise; the TTL is the positive integer
      `:ttl` option or 300; the extra options are the rule's options without
      `:ttl`, `:priority` (MX) and `resource_class`; the answer's class is
      the type answered. */
  lemma FinalizedAnswer(reply: Value, options: map<string, OptionValue>, t: RecordType)
    requires reply.Str? || t == A || t == AAAA
    ensures var f := FinalizeReplySpec(reply, options, t);
      f.answer.Ok? &&
      var a := f.answer.value;
      var removed := if t == MX then {"priority", "ttl"} else {"ttl"};
      (t == MX <==> a.preference.Some?) &&
      (t == MX ==>
         a.preference.value == (if "priority" in options && options["priority"].Num? then options["priority"].n else DefaultPreference)) &&
      (a.data.Address? <==> t == A || t == AAAA) &&
      (a.data.Address? ==> a.data.value == reply) &&
      (a.data.Name? ==> a.data.name == NameCreate(reply).value) &&
      a.options.resourceClass == t &&
      a.options.ttl == (if "ttl" in options && options["ttl"].Num? && options["ttl"].n > 0 then options["ttl"].n else DefaultTtl) &&
      a.options.extra == options - removed - {"resource_class"} &&
      f.options == options - removed
  {
    var removed := if t == MX then {"priority", "ttl"} else {"ttl"};
    if t == MX {
      assert options - {"priority"} - {"ttl"} == options - removed;
      assert "ttl" in options - {"priority"} <==> "ttl" in options;
    }
  }

  /** Finalising a reply that is not a string for a type other than A and
      AAAA raises ArgumentError, and for MX the `:priority` option is gone
      all the same. */
  lemma FinalizeRejectsNonString(reply: Value, options: map<string, OptionValue>, t: RecordType)
    requires !reply.Str? && t != A && t != AAAA
    ensures FinalizeReplySpec(reply, options, t) ==
      Finalized(Err(BadArgument), if t == MX then options - {"priority"} else options)
  {
  }

  /** Answering deletes `:ttl` (and, for MX, `:priority`) from the rule's own
      options and keeps every other key, so the next answer from the same
      rule has TTL 300 and MX preference 10. */
  lemma AnswerConsumesOptions(engine: RegexEngine, st: RuleState, t: RecordType, md: Option<MatchData>, q: Query)
    requires ProcessRuleSpec(engine, st, t, md, q).outcome.Responded?
    ensures var next := ProcessRuleSpec(engine, st, t, md, q).state;
      "ttl" !in next.options &&
      (t == MX ==> "priority" !in next.options) &&
      (forall k :: k in st.options && k != "ttl" && (t != MX || k != "priority") ==>
        k in next.options && next.options[k] == st.options[k]) &&
      next.(options := st.options) == st
    ensures var next := ProcessRuleSpec(engine, st, t, md, q).state;
      var again := ProcessRuleSpec(engine, next, t, md, q);
      again.outcome.Responded? ==>
        again.outcome.answer.options.ttl == DefaultTtl &&
        (t == MX ==> again.outcome.answer.preference == Some(DefaultPreference))
  {
    var reply := ExecuteRule(engine, st, Symbol(t), md, q).value;
    var f := FinalizeReplySpec(reply, st.options, t);
    FinalizeConsumes(reply, st.options, t);
    var next := ProcessRuleSpec(engine, st, t, md, q).state;
    assert next == st.(options := f.options);
    assert ExecuteRule(engine, next, Symbol(t), md, q) == ExecuteRule(engine, st, Symbol(t), md, q);
    FinalizeConsumes(reply, next.options, t);
  }

  /** What finalising takes from the options: `:ttl`, and `:priority` for
      MX; without them the TTL and the preference are the defaults. */
  lemma FinalizeConsumes(reply: Value, options: map<string, OptionValue>, t: RecordType)
    ensures var f := FinalizeReplySpec(reply, options, t);
      f.answer.Ok? ==> f.options == options - (if t == MX then {"priority", "ttl"} else {"ttl"})
    ensures var f := FinalizeReplySpec(reply, options, t);
      f.answer.Ok? && "ttl" !in options ==> f.answer.value.options.ttl == DefaultTtl
    ensures var f := FinalizeReplySpec(reply, options, t);
      f.answer.Ok? && t == MX && "priority" !in options ==> f.answer.value.preference == Some(DefaultPreference)
  {
    if t == MX {
      assert options - {"priority"} - {"ttl"} == options - {"priority", "ttl"};
    }
  }

  /** An answer sent for type `t` carries class `t`. */
  lemma ClassStepAnswerClass(engine: RegexEngine, st: RuleState, t: RecordType, text: string, q: Query)
    ensures var s := ClassStep(engine, st, t, text, q);
      s.outcome.Responded? ==> s.outcome.answer.options.resourceClass == t
  {
  }

  lemma {:induction false} RunClassesAnswersTried(engine: RegexEngine, st: RuleState, ts: seq<RecordType>, text: string, q: Query)
    decreases |ts|
    ensures forall a :: a in RunClassesWith(ClassStepper(engine, text, q), st, ts).answers ==> a.options.resourceClass in ts
  {
    if ts != [] {
      var s := ClassStep(engine, st, ts[0], text, q);
      ClassStepAnswerClass(engine, st, ts[0], text, q);
      if !s.outcome.Raised? {
        RunClassesAnswersTried(engine, s.state, ts[1..], text, q);
      }
    }
  }

  /** Every answer a rule sends is for a type that the server handles, that
      the rule declares, and that the query asked for (any handled type for
      an ANY query). */
  lemma {:induction false} AnswersMatchRequest(engine: RegexEngine, sts: seq<RuleState>, text: string, q: Query)
    ensures forall a :: a in RunRules(engine, sts, text, q).answers ==>
      a.options.resourceClass in AnyClasses &&
      (q.resourceClass != AnyRequest ==> a.options.resourceClass == q.resourceClass)
  {
    if sts != [] {
      var rc := ResourceClassOf(sts[0].types);
      if rc.Ok? {
        var ts := TriedClasses(rc.value.AsList(), q.resourceClass);
        TriedClassesSpec(rc.value.AsList(), q.resourceClass);
        RunClassesAnswersTried(engine, sts[0], ts, text, q);
      }
      AnswersMatchRequest(engine, sts[1..], text, q);
    }
  }

  /** A rule whose pattern does not match the name sends nothing and is left
      as it was, whatever types it is tried for. */
  lemma {:induction false} UnmatchedRuleIsSilent(engine: RegexEngine, st: RuleState, ts: seq<RecordType>, text: string, q: Query)
    requires !MatchHostOf(engine, st.pattern, text).Truthy()
    decreases |ts|
    ensures RunClassesWith(ClassStepper(engine, text, q), st, ts) == Run([], st, None)
  {
    if ts != [] {
      assert ClassStep(engine, st, ts[0], text, q) == Step(Skipped, st);
      UnmatchedRuleIsSilent(engine, st, ts[1..], text, q);
    }
  }

  /** When no rule's pattern matches the name (and every rule's type is
      valid) the query gets no answer and no rule changes. */
  lemma {:induction false} NoMatchNoAnswer(engine: RegexEngine, sts: seq<RuleState>, text: string, q: Query)
    requires forall i :: 0 <= i < |sts| ==> ResourceClassOf(sts[i].types).Ok?
    requires forall i :: 0 <= i < |sts| ==> !MatchHostOf(engine, sts[i].pattern, text).Truthy()
    ensures RunRules(engine, sts, text, q) == RulesRun([], sts, None)
  {
    if sts != [] {
      var rc := ResourceClassOf(sts[0].types);
      UnmatchedRuleIsSilent(engine, sts[0], TriedClasses(rc.value.AsList(), q.resourceClass), text, q);
      NoMatchNoAnswer(engine, sts[1..], text, q);
      assert [sts[0]] + sts[1..] == sts;
    }
  }

  /** Rules are independent: the answers for a list of rules are the
      answers of its first part followed by those of the rest, as long as
      the first part raises nothing. A rule that answers `false` or `nil`
      therefore does not stop the rules after it. */
  lemma {:induction false} RunRulesAppend(process: RuleState -> Run, s1: seq<RuleState>, s2: seq<RuleState>)
    requires RunRulesWith(process, s1).error.None?
    ensures RunRulesWith(process, s1 + s2) ==
      var r1 := RunRulesWith(process, s1);
      var r2 := RunRulesWith(process, s2);
      RulesRun(r1.answers + r2.answers, r1.states + r2.states, r2.error)
  {
    var r2 := RunRulesWith(process, s2);
    if s1 == [] {
      assert s1 + s2 == s2;
      assert [] + r2.answers == r2.answers && [] + r2.states == r2.states;
    } else {
      var first := process(s1[0]);
      var tail := RunRulesWith(process, s1[1..]);
      assert (s1 + s2)[0] == s1[0];
      assert (s1 + s2)[1..] == s1[1..] + s2;
      RunRulesAppend(process, s1[1..], s2);
      assert first.answers + (tail.answers + r2.answers) == (first.answers + tail.answers) + r2.answers;
      assert [first.state] + (tail.states + r2.states) == ([first.state] + tail.states) + r2.states;
    }
  }

  /** NXDOMAIN is the answer exactly when the handler's `/.+/` does not match
      the name or the requested type is not handled; it comes with no
      answers and leaves the rules untouched. */
  lemma NxDomainExactly(engine: RegexEngine, sts: seq<RuleState>, q: Query)
    ensures HandleQuerySpec(engine, sts, q).failure.Some? <==>
      (forall i :: 0 <= i < |q.name| ==> q.name[i] == '\n') || q.resourceClass !in AnyClasses
    ensures HandleQuerySpec(engine, sts, q).failure.Some? ==>
      HandleQuerySpec(engine, sts, q) == QueryResult([], sts, Some(NXDomain), None)
  {
  }

  /** A static rule whose pattern is the queried text answers every type it
      is tried for, in order. */
  lemma {:induction false} StaticRuleAnswersEveryType(engine: RegexEngine, st: RuleState, ts: seq<RecordType>, text: string, q: Query)
    requires st.block.None? && st.reply.Str? && st.pattern == Str(text)
    decreases |ts|
    ensures var r := RunClassesWith(ClassStepper(engine, text, q), st, ts);
      r.error.None? && |r.answers| == |ts| &&
      (forall i :: 0 <= i < |ts| ==> r.answers[i].options.resourceClass == ts[i]) &&
      (forall i :: 0 <= i < |ts| && (ts[i] == A || ts[i] == AAAA) ==> r.answers[i].data == Address(st.reply))
  {
    if ts != [] {
      var s := ClassStep(engine, st, ts[0], text, q);
      FinalizedAnswer(st.reply, st.options, ts[0]);
      assert s.outcome.Responded?;
      StaticRuleAnswersEveryType(engine, s.state, ts[1..], text, q);
    }
  }

  /** With a single rule, a query the handler matches gets what processing
      that rule gives. */
  lemma SingleRuleQuery(engine: RegexEngine, st: RuleState, q: Query)
    requires '\n' !in q.name && q.name != [] && q.resourceClass in AnyClasses
    ensures var r := RuleInClassesSpec(engine, st, q.name, q);
      HandleQuerySpec(engine, [st], q) == QueryResult(r.answers, [r.state], None, r.error)
  {
    CatchAllOnNames(q.name);
    var process := RuleProcessor(engine, q.name, q);
    RunRulesWithStep(process, [st], 0);
    ProcessorApplied(engine, q.name, q, st);
    var first := Processed(process, st);
    assert [st][0..] == [st] && [st][1..] == [];
    assert RestOf(process, [st], 1, first.error) == RulesRun([], [], first.error);
    assert first.answers + [] == first.answers && [first.state] + [] == [first.state];
  }

  /** A static exact-string rule for type A answers an A query for its own
      name exactly once, with its reply. */
  lemma ExactRuleAnswersOnce(engine: RegexEngine, name: string, reply: string, options: map<string, OptionValue>)
    requires name != [] && '\n' !in name
    ensures var st := RuleState(Str(name), Sym("A"), Str(reply), None, options);
      var r := HandleQuerySpec(engine, [st], Query(name, A));
      r.failure.None? && r.error.None? &&
      r.answers ==
        [Answer(None, Address(Str(reply)),
                ReplyOptions(options - {"ttl"} - {"resource_class"}, A, ValidateTtl(Lookup(options, "ttl"))))]
  {
    var st := RuleState(Str(name), Sym("A"), Str(reply), None, options);
    var q := Query(name, A);
    var s := ClassStep(engine, st, A, name, q);
    StaticAddressStep(engine, st, name, q);
    assert RuleInClassesSpec(engine, st, name, q) == Run([s.outcome.answer], s.state, None) by {
      OnlyA();
      OneClass(ClassStepper(engine, name, q), st, A);
    }
    SingleRuleQuery(engine, st, q);
  }

  /** A rule declared for type A alone is tried for an A query and nothing
      else. */
  lemma OnlyA()
    ensures ResourceClassOf(Sym("A")) == Ok(Single(A))
    ensures TriedClasses([A], A) == [A]
  {
    assert ResourceClassOf(Sym("A")) == Ok(Single(A));
    TriedSingle([A], A);
  }

  /** A static rule whose pattern is the queried text answers type A with
      its reply, its options without `:ttl` and `resource_class`, and the
      validated `:ttl`. */
  lemma StaticAddressStep(engine: RegexEngine, st: RuleState, text: string, q: Query)
    requires st.pattern == Str(text) && st.block.None? && st.reply.Str?
    ensures ClassStep(engine, st, A, text, q).outcome ==
      Responded(Answer(None, Address(st.reply),
        ReplyOptions(st.options - {"ttl"} - {"resource_class"}, A, ValidateTtl(Lookup(st.options, "ttl")))))
  {
    assert ExecuteRule(engine, st, Symbol(A), None, q) == Ok(st.reply);
  }

  lemma OneClass(step: (RuleState, RecordType) -> Step, st: RuleState, t: RecordType)
    ensures var s := step(st, t);
      RunClassesWith(step, st, [t]) ==
        if s.outcome.Raised? then Run([], s.state, Some(s.outcome.error)) else Run(Emitted(s.outcome), s.state, None)
  {
    assert [t][1..] == [];
    assert Emitted(step(st, t).outcome) + [] == Emitted(step(st, t).outcome);
  }

  /** A query to a static rule for its own name gets one answer per type
      that is tried: for an ANY query every declared type the server
      handles, in `AnyClasses` order; otherwise at most one, of the
      requested type. */
  lemma MultiTypeRule(engine: RegexEngine, name: string, reply: string, tags: seq<string>, requested: RecordType)
    requires name != [] && '\n' !in name
    requires ResourceClassOf(Syms(tags)).Ok?
    requires requested in AnyClasses
    ensures var st := RuleState(Str(name), Syms(tags), Str(reply), None, map[]);
      var r := HandleQuerySpec(engine, [st], Query(name, requested));
      var tried := TriedClasses(ResourceClassOf(Syms(tags)).value.AsList(), requested);
      r.failure.None? && r.error.None? &&
      |r.answers| == |tried| &&
      (forall i :: 0 <= i < |tried| ==> r.answers[i].options.resourceClass == tried[i]) &&
      (requested != AnyRequest ==> |r.answers| <= 1)
  {
    var st := RuleState(Str(name), Syms(tags), Str(reply), None, map[]);
    var q := Query(name, requested);
    SingleRuleQuery(engine, st, q);
    var tried := TriedClasses(ResourceClassOf(Syms(tags)).value.AsList(), requested);
    TriedClassesSpec(ResourceClassOf(Syms(tags)).value.AsList(), requested);
    StaticRuleAnswersEveryType(engine, st, tried, name, q);
  }

  // ---------------------------------------------------------------------
  // The imperative engine

  /** The DNS transaction of one query: the queried name and type, and the
      answers and failure code it has been given so far. */
  class Transaction {
    const name: string
    const resourceClass: RecordType
    var answers: seq<Answer>
    var failure: Option<nat>

    constructor (name: string, resourceClass: RecordType)
      ensures this.name == name && this.resourceClass == resourceClass
      ensures answers == [] && failure == None
    {
      this.name := name;
      this.resourceClass := resourceClass;
      answers := [];
      failure := None;
    }

    function AsQuery(): Query
    {
      Query(name, resourceClass)
    }

    /** `respond!` */
    method Respond(a: Answer)
      modifies this
      ensures answers == old(answers) + [a] && failure == old(failure)
    {
      answers := answers + [a];
    }

    /** `failure!` */
    method Fail(code: nat)
      modifies this
      ensures failure == Some(code) && answers == old(answers)
    {
      failure := Some(code);
    }
  }

  /** `prepare_reply_options`: deletes `:ttl` from the rule's options. */
  method PrepareReplyOptions(rule: Rule, t: RecordType) returns (r: ReplyOptions)
    modifies rule
    ensures r == PrepareReplyOptionsSpec(old(rule.options), t).result
    ensures rule.View() == old(rule.View()).(options := PrepareReplyOptionsSpec(old(rule.options), t).options)
  {
    var current := Lookup(rule.options, "ttl");
    rule.options := rule.options - {"ttl"};
    var ttl := ValidateTtl(current);
    r := ReplyOptions(rule.options - {"resource_class"}, t, ttl);
  }

  /** `finalize_reply`: builds the answer piece by piece, deleting
      `:priority` (MX) and `:ttl` from the rule's options. */
  method FinalizeReply(reply: Value, rule: Rule, t: RecordType) returns (r: Result<Answer>)
    modifies rule
    ensures r == FinalizeReplySpec(reply, old(rule.options), t).answer
    ensures rule.View() == old(rule.View()).(options := FinalizeReplySpec(reply, old(rule.options), t).options)
  {
    var preference: Option<int> := None;
    if t == MX {
      preference := Some(ToInteger(Lookup(rule.options, "priority"), DefaultPreference));
      rule.options := rule.options - {"priority"};
    }
    var data: AnswerData;
    if t == A || t == AAAA {
      data := Address(reply);
    } else {
      var name := NameCreate(reply);
      if name.Err? {
        return Err(name.error);
      }
      data := Name(name.value);
    }
    var options := PrepareReplyOptions(rule, t);
    r := Ok(Answer(preference, data, options));
  }

  /** `process_rule`: computes the reply and responds when it is truthy. */
  method ProcessRule(engine: RegexEngine, rule: Rule, t: RecordType, md: Option<MatchData>, tx: Transaction)
      returns (outcome: Outcome)
    modifies rule, tx
    ensures Step(outcome, rule.View()) == ProcessRuleSpec(engine, old(rule.View()), t, md, tx.AsQuery())
    ensures tx.answers == old(tx.answers) + Emitted(outcome) && tx.failure == old(tx.failure)
  {
    var reply := ExecuteRule(engine, rule.View(), Symbol(t), md, tx.AsQuery());
    if reply.Err? {
      return Raised(reply.error);
    }
    if reply.value.Truthy() {
      var answer := FinalizeReply(reply.value, rule, t);
      if answer.Err? {
        return Raised(answer.error);
      }
      tx.Respond(answer.value);
      outcome := Responded(answer.value);
    } else if reply.value.False? {
      outcome := ReturnedFalse;
    } else {
      outcome := ReturnedNil;
    }
  }

  function PrependRun(answers: seq<Answer>, r: Run): Run
  {
    Run(answers + r.answers, r.state, r.error)
  }

  /** `process_rule_in_classes`: tries the rule for every tried type in
      turn; an exception stops the loop. */
  method ProcessRuleInClasses(engine: RegexEngine, rule: Rule, text: string, tx: Transaction)
      returns (error: Option<Error>)
    modifies rule, tx
    ensures var r := RuleInClassesSpec(engine, old(rule.View()), text, tx.AsQuery());
      rule.View() == r.state && tx.answers == old(tx.answers) + r.answers && error == r.error
    ensures tx.failure == old(tx.failure)
  {
    var rc := rule.ResourceClass();
    if rc.Err? {
      return Some(rc.error);
    }
    var ts := TriedClasses(rc.value.AsList(), tx.resourceClass);
    ghost var stepper := ClassStepper(engine, text, tx.AsQuery());
    ghost var st0 := rule.View();
    ghost var a0 := tx.answers;
    ghost var sent: seq<Answer> := [];
    assert ts[0..] == ts;
    PrependRunEmpty(RunClassesWith(stepper, st0, ts));
    var k := 0;
    while k < |ts|
      invariant 0 <= k <= |ts|
      invariant tx.failure == old(tx.failure)
      invariant tx.answers == a0 + sent
      invariant RunClassesWith(stepper, st0, ts) == PrependRun(sent, RunClassesWith(stepper, rule.View(), ts[k..]))
    {
      ghost var view := rule.View();
      var outcome := TryClass(engine, rule, ts[k], text, tx);
      RunClassesWithStep(stepper, view, ts, k, Step(outcome, rule.View()));
      if outcome.Raised? {
        return Some(outcome.error);
      }
      SeqAssoc(a0, sent, Emitted(outcome));
      PrependRunAssoc(sent, Emitted(outcome), RunClassesWith(stepper, rule.View(), ts[k + 1..]));
      sent := sent + Emitted(outcome);
      k := k + 1;
    }
    return None;
  }

  /** One iteration of the loop of `process_rule_in_classes`: the rule is
      processed for type `t` when `match_host` is truthy. */
  method TryClass(engine: RegexEngine, rule: Rule, t: RecordType, text: string, tx: Transaction)
      returns (outcome: Outcome)
    modifies rule, tx
    ensures Step(outcome, rule.View()) == ClassStep(engine, old(rule.View()), t, text, tx.AsQuery())
    ensures tx.answers == old(tx.answers) + Emitted(outcome) && tx.failure == old(tx.failure)
  {
    var matches := rule.MatchHost(engine, text);
    if matches.Truthy() {
      outcome := ProcessRule(engine, rule, t, if rule.IsRegexp() then matches.data else None, tx);
    } else {
      outcome := Skipped;
      assert tx.answers == old(tx.answers) + [];
    }
  }

  lemma RunClassesWithStep(step: (RuleState, RecordType) -> Step, st: RuleState, ts: seq<RecordType>, k: nat, s: Step)
    requires k < |ts| && step(st, ts[k]) == s
    ensures RunClassesWith(step, st, ts[k..]) ==
      if s.outcome.Raised? then Run([], s.state, Some(s.outcome.error))
      else PrependRun(Emitted(s.outcome), RunClassesWith(step, s.state, ts[k + 1..]))
  {
    assert ts[k..][0] == ts[k];
    assert ts[k..][1..] == ts[k + 1..];
  }

  lemma PrependRunEmpty(r: Run)
    ensures PrependRun([], r) == r
  {
    assert [] + r.answers == r.answers;
  }

  lemma PrependRunAssoc(a: seq<Answer>, b: seq<Answer>, r: Run)
    ensures PrependRun(a, PrependRun(b, r)) == PrependRun(a + b, r)
  {
    assert a + (b + r.answers) == (a + b) + r.answers;
  }

  function PrependRules(answers: seq<Answer>, states: seq<RuleState>, r: RulesRun): RulesRun
  {
    RulesRun(answers + r.answers, states + r.states, r.error)
  }

  /** The handler of `perform_server` for one query, with the `otherwise`
      fallback: NXDOMAIN when `/.+/` or the handled types do not match,
      otherwise every rule in order. */
  method AnswerQuery(engine: RegexEngine, rules: seq<Rule>, tx: Transaction) returns (error: Option<Error>)
    requires forall i, j :: 0 <= i < j < |rules| ==> rules[i] != rules[j]
    modifies (set x | x in rules), tx
    ensures var r := HandleQuerySpec(engine, old(Views(rules)), tx.AsQuery());
      Views(rules) == r.states && tx.answers == old(tx.answers) + r.answers && error == r.error &&
      tx.failure == (if r.failure.Some? then r.failure else old(tx.failure))
  {
    var md := CatchAllFind(tx.name);
    if md.None? || tx.resourceClass !in AnyClasses {
      tx.Fail(NXDomain);
      return None;
    }
    error := ProcessRules(engine, rules, md.value.Whole().value, tx);
  }

  /** `config.rules.each { |rule| process_rule_in_classes(...) }`: every
      rule in order, until one raises. */
  method ProcessRules(engine: RegexEngine, rules: seq<Rule>, text: string, tx: Transaction) returns (error: Option<Error>)
    requires forall i, j :: 0 <= i < j < |rules| ==> rules[i] != rules[j]
    modifies (set x | x in rules), tx
    ensures var r := RunRules(engine, old(Views(rules)), text, tx.AsQuery());
      Views(rules) == r.states && tx.answers == old(tx.answers) + r.answers && error == r.error
    ensures tx.failure == old(tx.failure)
  {
    error := None;
    ghost var process := RuleProcessor(engine, text, tx.AsQuery());
    ghost var st0 := Views(rules);
    ghost var a0 := tx.answers;
    ghost var sent: seq<Answer> := [];
    ghost var done: seq<RuleState> := [];
    assert st0[0..] == st0;
    assert done + st0[0..] == st0;
    PrependRulesEmpty(RunRulesWith(process, st0));
    var i := 0;
    while i < |rules| && error.None?
      invariant 0 <= i <= |rules| && |done| == i
      invariant Views(rules) == done + st0[i..]
      invariant tx.failure == old(tx.failure)
      invariant tx.answers == a0 + sent
      invariant RunRulesWith(process, st0) == PrependRules(sent, done, RestOf(process, st0, i, error))
    {
      ghost var first := Processed(process, st0[i]);
      RulesAdvance(process, st0, i, sent, done);
      ProcessorApplied(engine, text, tx.AsQuery(), st0[i]);
      UpdateAt(done, st0, i, first.state);
      SeqAssoc(a0, sent, first.answers);
      assert rules[i].View() == st0[i] by { ConcatIndex(done, st0, i, Views(rules)); }
      error := ProcessRuleAt(engine, rules, i, text, tx);
      sent := sent + first.answers;
      done := done + [first.state];
      i := i + 1;
    }
    RestOfStates(process, st0, i, error);
  }

  /** `process_rule_in_classes` for the rule at index `i`; the other rules
      are left as they are. */
  method ProcessRuleAt(engine: RegexEngine, rules: seq<Rule>, i: nat, text: string, tx: Transaction)
      returns (error: Option<Error>)
    requires i < |rules|
    requires forall i, j :: 0 <= i < j < |rules| ==> rules[i] != rules[j]
    modifies rules[i], tx
    ensures var r := RuleInClassesSpec(engine, old(rules[i].View()), text, tx.AsQuery());
      Views(rules) == old(Views(rules))[i := r.state] &&
      tx.answers == old(tx.answers) + r.answers && error == r.error
    ensures tx.failure == old(tx.failure)
  {
    ghost var before := Views(rules);
    error := ProcessRuleInClasses(engine, rules[i], text, tx);
    ViewsPointwise(rules, before[i := rules[i].View()]);
  }

  /** What processing the rules from index `i` on gives, when the rules
      before it raised `error` (nothing, if they raised). */
  ghost function RestOf(process: RuleState -> Run, sts: seq<RuleState>, i: nat, error: Option<Error>): RulesRun
    requires i <= |sts|
  {
    if error.None? then RunRulesWith(process, sts[i..]) else RulesRun([], sts[i..], error)
  }

  lemma RestOfStates(process: RuleState -> Run, sts: seq<RuleState>, i: nat, error: Option<Error>)
    requires i <= |sts| && (i == |sts| || error.Some?)
    ensures RestOf(process, sts, i, error) == RulesRun([], sts[i..], error)
  {
  }

  lemma ConcatIndex(done: seq<RuleState>, rest: seq<RuleState>, i: nat, states: seq<RuleState>)
    requires |done| == i <= |rest| && states == done + rest[i..]
    ensures |states| == |rest|
    ensures forall j :: 0 <= j < i ==> states[j] == done[j]
    ensures forall j :: i <= j < |rest| ==> states[j] == rest[j]
  {
  }

  lemma UpdateAt(done: seq<RuleState>, rest: seq<RuleState>, i: nat, x: RuleState)
    requires |done| == i < |rest|
    ensures (done + rest[i..])[i := x] == (done + [x]) + rest[i + 1..]
  {
    ConcatIndex(done, rest, i, done + rest[i..]);
  }

  function Processed(process: RuleState -> Run, st: RuleState): Run
  {
    process(st)
  }

  lemma ProcessorApplied(engine: RegexEngine, text: string, q: Query, st: RuleState)
    ensures Processed(RuleProcessor(engine, text, q), st) == RuleInClassesSpec(engine, st, text, q)
  {
  }

  lemma RunRulesWithStep(process: RuleState -> Run, sts: seq<RuleState>, i: nat)
    requires i < |sts|
    ensures var first := Processed(process, sts[i]);
      RunRulesWith(process, sts[i..]) == PrependRules(first.answers, [first.state], RestOf(process, sts, i + 1, first.error))
  {
    assert sts[i..][0] == sts[i];
    assert sts[i..][1..] == sts[i + 1..];
    var first := process(sts[i]);
    if first.error.Some? {
      assert first.answers + [] == first.answers;
    }
  }

  /** One more rule processed: its answers and new state join the done
      part, and an exception it raises stops the rest. */
  lemma RulesAdvance(process: RuleState -> Run, sts: seq<RuleState>, i: nat, sent: seq<Answer>, done: seq<RuleState>)
    requires i < |sts|
    requires RunRulesWith(process, sts) == PrependRules(sent, done, RestOf(process, sts, i, None))
    ensures var first := Processed(process, sts[i]);
      RunRulesWith(process, sts) ==
        PrependRules(sent + first.answers, done + [first.state], RestOf(process, sts, i + 1, first.error))
  {
    var first := Processed(process, sts[i]);
    RunRulesWithStep(process, sts, i);
    PrependRulesAssoc(sent, first.answers, done, [first.state], RestOf(process, sts, i + 1, first.error));
  }

  lemma SeqAssoc<T>(a: seq<T>, b: seq<T>, c: seq<T>)
    ensures (a + b) + c == a + (b + c)
  {
  }

  lemma PrependRulesEmpty(r: RulesRun)
    ensures PrependRules([], [], r) == r
  {
    assert [] + r.answers == r.answers && [] + r.states == r.states;
  }

  lemma PrependRulesAssoc(a: seq<Answer>, b: seq<Answer>, s: seq<RuleState>, t: seq<RuleState>, r: RulesRun)
    ensures PrependRules(a, s, PrependRules(b, t, r)) == PrependRules(a + b, s + t, r)
  {
    assert a + (b + r.answers) == (a + b) + r.answers;
    assert s + (t + r.states) == (s + t) + r.states;
  }
}
