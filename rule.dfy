/** A DNS rule: the pattern a hostname is matched against, the record
    type(s) it answers, and a static reply or a block that computes one
    (lib/devdnsd/rule.rb; the query methods follow spec/devdnsd/rule_spec.rb).
    Ruby's regular-expression engine is not modelled: it is a parameter of
    the operations that need it, except for the catch-all pattern `/.+/`,
    whose matching is given concretely. */
module Rules {
  import opened Base
  import opened Records

  /** The groups of a successful regular-expression match; group 0 is the
      matched text. */
  datatype MatchData = MatchData(groups: seq<Option<string>>)
  {
    /** `match_data[0]` */
    function Whole(): Option<string>
    {
      if |groups| > 0 then groups[0] else None
    }
  }

  datatype Regex = Regex(source: string)

  /** `/.+/`, the pattern of the default rule and of the server's handler. */
  const CatchAll: Regex := Regex(".+")

  /** The two operations of Ruby's regular-expression engine the core uses:
      `Regexp#match` and `String#gsub(regexp, template)`. */
  datatype RegexEngine = RegexEngine(
    find: (Regex, string) -> Option<MatchData>,
    gsub: (string, Regex, string) -> string)

  /** The leading characters of `s` up to the first newline. */
  function LineRun(s: string): (r: string)
    ensures |r| <= |s| && r == s[..|r|] && '\n' !in r
    ensures |r| == |s| || s[|r|] == '\n'
    ensures '\n' !in s ==> r == s
  {
    if s == [] || s[0] == '\n' then [] else [s[0]] + LineRun(s[1..])
  }

  /** What `/.+/` matches in `s`: `.` does not match a newline, so the match
      is the leftmost run of non-newline characters, taken as long as
      possible. */
  function CatchAllFind(s: string): (r: Option<MatchData>)
    ensures r.Some? <==> exists i :: 0 <= i < |s| && s[i] != '\n'
    ensures r.Some? ==> r.value.Whole().Some? && r.value.Whole().value != []
    ensures r.Some? ==> '\n' !in r.value.Whole().value
  {
    if s == [] then None
    else if s[0] == '\n' then
      var r := CatchAllFind(s[1..]);
      assert forall i :: 1 <= i < |s| ==> s[i] == s[1..][i - 1];
      r
    else Some(MatchData([Some(LineRun(s))]))
  }

  /** On a name without newlines `/.+/` matches exactly the non-empty names,
      and the matched text is the whole name. */
  lemma {:induction false} CatchAllOnNames(name: string)
    requires '\n' !in name
    ensures CatchAllFind(name).Some? <==> name != []
    ensures name != [] ==> CatchAllFind(name).value.Whole() == Some(name)
  {
    if name != [] {
      assert name[0] != '\n';
    }
  }

  /** The engine agrees with Ruby on the catch-all pattern. */
  ghost predicate KnowsCatchAll(engine: RegexEngine)
  {
    forall s :: engine.find(CatchAll, s) == CatchAllFind(s)
  }

  /** The Ruby values a rule declaration and a reply block deal in. */
  datatype Value =
    | Str(s: string)
    | Sym(name: string)
    | Re(regex: Regex)
    | Syms(names: seq<string>)
    | Nil
    | False
  {
    /** Ruby truthiness: everything except `nil` and `false`. */
    predicate Truthy() { !Nil? && !False? }
  }

  /** What a reply block sees of the transaction. */
  datatype Query = Query(name: string, resourceClass: RecordType)

  /** A reply block: called with the match data, the type symbol and the
      transaction. */
  type Callback = (Option<MatchData>, string, Query) -> Value

  /** Values of the `options` hash (`:ttl`, `:priority` and any other key). */
  datatype OptionValue = Num(n: int) | Word(w: string)

  /** `match_host`'s result: a boolean for an exact pattern, match data or
      `nil` for a regular expression. */
  datatype HostMatch = Equality(equal: bool) | RegexMatch(data: Option<MatchData>)
  {
    predicate Truthy()
    {
      if Equality? then equal else data.Some?
    }
  }

  /** `resource_class`: one class, or a list of them. */
  datatype ClassSpec = Single(t: RecordType) | Several(ts: seq<RecordType>)
  {
    /** `ensure_array` */
    function AsList(): (r: seq<RecordType>)
      ensures Single? ==> r == [t]
      ensures Several? ==> r == ts
    {
      if Single? then [t] else ts
    }
  }

  /** The fields of a rule object, as a value. */
  datatype RuleState = RuleState(
    pattern: Value,
    types: Value,
    reply: Value,
    block: Option<Callback>,
    options: map<string, OptionValue>)

  /** The fields of `Rule.new` (lib/devdnsd/rule.rb:10-15). */
  const DefaultRule: RuleState := RuleState(Re(CatchAll), Sym("A"), Str("127.0.0.1"), None, map[])

  /** `match_host` on a given pattern (spec/devdnsd/rule_spec.rb:49-58). */
  function MatchHostOf(engine: RegexEngine, pattern: Value, hostname: string): HostMatch
  {
    if pattern.Re? then RegexMatch(engine.find(pattern.regex, hostname))
    else Equality(pattern == Str(hostname))
  }

  /** An exact pattern matches exactly the hostname equal to it and never
      gives match data; a regular expression matches when the engine finds
      it, and then gives the engine's match data. */
  lemma MatchHostSpec(engine: RegexEngine, pattern: Value, hostname: string)
    ensures !pattern.Re? ==> MatchHostOf(engine, pattern, hostname).Equality?
    ensures !pattern.Re? ==> (MatchHostOf(engine, pattern, hostname).Truthy() <==> pattern.Str? && pattern.s == hostname)
    ensures pattern.Re? ==> (MatchHostOf(engine, pattern, hostname).Truthy() <==> engine.find(pattern.regex, hostname).Some?)
    ensures pattern.Re? && MatchHostOf(engine, pattern, hostname).Truthy() ==>
      MatchHostOf(engine, pattern, hostname).data == engine.find(pattern.regex, hostname)
  {
  }

  /** `to_sym`: defined on strings and symbols only. */
  function ToSym(v: Value): (r: Result<string>)
    ensures r.Ok? <==> v.Str? || v.Sym?
    ensures r.Ok? ==> r.value == (if v.Str? then v.s else v.name)
    ensures r.Err? ==> r.error == NoMethod
  {
    match v
    case Str(s) => Ok(s)
    case Sym(n) => Ok(n)
    case _ => Err(NoMethod)
  }

  /** The type tags a rule's `type` field names. */
  function TypeTags(types: Value): Result<seq<string>>
  {
    match types
    case Sym(n) => Ok([n])
    case Str(s) => Ok([s])
    case Syms(ns) => Ok(ns)
    case _ => Err(InvalidRule)
  }

  /** The classes of the tags, failing on the first unknown tag. */
  function ClassesOf(tags: seq<string>): (r: Result<seq<RecordType>>)
    ensures r.Err? ==> r.error == InvalidRule
  {
    if tags == [] then Ok([])
    else
      var first := SymbolToResourceClass(tags[0]);
      var rest := ClassesOf(tags[1..]);
      if first.Err? then Err(first.error)
      else if rest.Err? then Err(rest.error)
      else Ok([first.value] + rest.value)
  }

  lemma {:induction false} ClassesOfSpec(tags: seq<string>)
    ensures ClassesOf(tags).Ok? <==> forall i :: 0 <= i < |tags| ==> SymbolToResourceClass(tags[i]).Ok?
    ensures ClassesOf(tags).Ok? ==> |ClassesOf(tags).value| == |tags|
    ensures ClassesOf(tags).Ok? ==>
      forall i :: 0 <= i < |tags| ==> ClassesOf(tags).value[i] == SymbolToResourceClass(tags[i]).value
  {
    if tags != [] {
      ClassesOfSpec(tags[1..]);
      assert forall i :: 1 <= i < |tags| ==> tags[i] == tags[1..][i - 1];
    }
  }

  /** A class is among the converted tags exactly when some tag names it. */
  lemma ClassesOfTags(tags: seq<string>)
    requires ClassesOf(tags).Ok?
    ensures forall t :: t in Dedup(ClassesOf(tags).value) <==>
      exists i :: 0 <= i < |tags| && SymbolToResourceClass(tags[i]) == Ok(t)
  {
    var classes := ClassesOf(tags).value;
    ClassesOfSpec(tags);
    DedupMembers(classes);
    forall t | t in Dedup(classes)
      ensures exists i :: 0 <= i < |tags| && SymbolToResourceClass(tags[i]) == Ok(t)
    {
      var i := IndexOf(classes, t);
      assert SymbolToResourceClass(tags[i]) == Ok(t);
    }
  }

  /** `resource_class`: the classes of the declared tags, without
      repetition; a single class when only one remains. */
  function ResourceClassOf(types: Value): Result<ClassSpec>
  {
    var tags := TypeTags(types);
    if tags.Err? then Err(tags.error)
    else
      var classes := ClassesOf(tags.value);
      if classes.Err? then Err(classes.error)
      else
        var distinct := Dedup(classes.value);
        if |distinct| == 1 then Ok(Single(distinct[0])) else Ok(Several(distinct))
  }

  /** `resource_class` fails with InvalidRule exactly when a declared tag
      names no class; otherwise it lists every declared class once, in
      declaration order, and is a single class when one class is declared
      (spec/devdnsd/rule_spec.rb:94-98). */
  lemma ResourceClassSpec(types: Value)
    requires TypeTags(types).Ok?
    ensures ResourceClassOf(types).Err? ==> ResourceClassOf(types).error == InvalidRule
    ensures ResourceClassOf(types).Ok? <==>
      forall i :: 0 <= i < |TypeTags(types).value| ==> SymbolToResourceClass(TypeTags(types).value[i]).Ok?
    ensures ResourceClassOf(types).Ok? ==>
      var tags := TypeTags(types).value;
      var listed := ResourceClassOf(types).value.AsList();
      NoDuplicates(listed) &&
      (forall t :: t in listed <==> exists i :: 0 <= i < |tags| && SymbolToResourceClass(tags[i]) == Ok(t)) &&
      (forall t :: t in listed ==> t in ClassesOf(tags).value) &&
      (forall i, j :: 0 <= i < j < |listed| ==>
        IndexOf(ClassesOf(tags).value, listed[i]) < IndexOf(ClassesOf(tags).value, listed[j]))
    ensures types.Sym? && ResourceClassOf(types).Ok? ==>
      ResourceClassOf(types).value == Single(SymbolToResourceClass(types.name).value)
  {
    var tags := TypeTags(types).value;
    ClassesOfSpec(tags);
    if ResourceClassOf(types).Ok? {
      ResourceClassListed(types);
      var classes := ClassesOf(tags).value;
      DedupMembers(classes);
      DedupOrder(classes);
      ClassesOfTags(tags);
      if types.Sym? {
        assert classes == [SymbolToResourceClass(types.name).value];
        assert Dedup(classes) == classes;
      }
    }
  }

  /** The classes `resource_class` lists are the declared classes without
      repetition. */
  lemma ResourceClassListed(types: Value)
    requires ResourceClassOf(types).Ok?
    ensures TypeTags(types).Ok? && ClassesOf(TypeTags(types).value).Ok?
    ensures ResourceClassOf(types).value.AsList() == Dedup(ClassesOf(TypeTags(types).value).value)
  {
  }

  /** `Rule.create(*args, &block)` (lib/devdnsd/rule.rb:17-34) on values.
      The argument count check aborts in the code; the error is reported as
      InvalidRule. */
  function CreateSpec(args: seq<Value>, block: Option<Callback>): (r: Result<RuleState>)
    ensures r == Err(InvalidRule) <==> |args| != 2 && |args| != 3
    ensures r.Ok? ==> r.value.pattern == args[0] && r.value.options == map[] && r.value.block == block
    ensures r.Ok? && block.Some? ==> ToSym(args[1]).Ok? && r.value.types == Sym(ToSym(args[1]).value) && r.value.reply == DefaultRule.reply
    ensures r.Ok? && block.None? ==> r.value.reply == args[1]
    ensures r.Ok? && block.None? && |args| == 2 ==> r.value.types == Sym("A")
    ensures r.Ok? && block.None? && |args| == 3 ==> ToSym(args[2]).Ok? && r.value.types == Sym(ToSym(args[2]).value)
  {
    if |args| != 2 && |args| != 3 then Err(InvalidRule)
    else
      var base := DefaultRule.(pattern := args[0]);
      if block.Some? then
        var t := ToSym(args[1]);
        if t.Err? then Err(t.error) else Ok(base.(types := Sym(t.value), block := block))
      else if |args| == 3 then
        var t := ToSym(args[2]);
        if t.Err? then Err(t.error) else Ok(base.(reply := args[1], types := Sym(t.value)))
      else Ok(base.(reply := args[1]))
  }

  /** With a block the third argument plays no part: creating the rule from
      the first two arguments gives the same result. */
  lemma CreateIgnoresThirdWithBlock(args: seq<Value>, block: Callback)
    requires |args| == 3
    ensures CreateSpec(args, Some(block)) == CreateSpec(args[..2], Some(block))
  {
  }

  /** Creation succeeds for every two- or three-argument declaration whose
      type argument is a string or a symbol. */
  lemma CreateSucceeds(args: seq<Value>, block: Option<Callback>)
    requires |args| == 2 || |args| == 3
    requires block.Some? ==> args[1].Str? || args[1].Sym?
    requires block.None? && |args| == 3 ==> args[2].Str? || args[2].Sym?
    ensures CreateSpec(args, block).Ok?
  {
  }

  /** A type argument that is neither a string nor a symbol, such as the
      Array `[:A, :MX]`, has no `to_sym`: creation raises NoMethodError. */
  lemma CreateRejectsOtherTypes(args: seq<Value>, block: Option<Callback>)
    requires |args| == 2 || |args| == 3
    requires block.Some? ==> !(args[1].Str? || args[1].Sym?)
    requires block.None? ==> |args| == 3 && !(args[2].Str? || args[2].Sym?)
    ensures CreateSpec(args, block) == Err(NoMethod)
  {
  }

  /** A rule object (`attr_accessor :match, :type, :reply, :block`, plus the
      `options` hash the server reads; `match` and `type` are called `pattern`
      and `types` here). Every field is writable. */
  class Rule {
    var pattern: Value
    var types: Value
    var reply: Value
    var block: Option<Callback>
    var options: map<string, OptionValue>

    function View(): RuleState
      reads this
    {
      RuleState(pattern, types, reply, block, options)
    }

    /** `Rule.new` (lib/devdnsd/rule.rb:10-15). */
    constructor ()
      ensures View() == DefaultRule
    {
      pattern := Re(CatchAll);
      types := Sym("A");
      reply := Str("127.0.0.1");
      block := None;
      options := map[];
    }

    /** `regexp?` */
    predicate IsRegexp()
      reads this
    {
      pattern.Re?
    }

    /** `match_host` */
    function MatchHost(engine: RegexEngine, hostname: string): HostMatch
      reads this
    {
      MatchHostOf(engine, pattern, hostname)
    }

    /** `resource_class` */
    function ResourceClass(): Result<ClassSpec>
      reads this
    {
      ResourceClassOf(types)
    }

    /** `Rule.create(*args, &block)`: builds a fresh rule and assigns its
        fields one by one. */
    static method Create(args: seq<Value>, block: Option<Callback>) returns (r: Result<Rule>)
      ensures r.Ok? <==> CreateSpec(args, block).Ok?
      ensures r.Ok? ==> fresh(r.value) && r.value.View() == CreateSpec(args, block).value
      ensures r.Err? ==> r.error == CreateSpec(args, block).error
    {
      var rule := new Rule();
      if |args| != 2 && |args| != 3 {
        return Err(InvalidRule);
      }
      rule.pattern := args[0];
      if block.Some? {
        var t := ToSym(args[1]);
        if t.Err? {
          return Err(t.error);
        }
        rule.types := Sym(t.value);
        rule.block := block;
      } else {
        rule.reply := args[1];
        if |args| == 3 {
          var t := ToSym(args[2]);
          if t.Err? {
            return Err(t.error);
          }
          rule.types := Sym(t.value);
        }
      }
      return Ok(rule);
    }
  }

  /** The rule objects' fields, as values. */
  function Views(rules: seq<Rule>): (r: seq<RuleState>)
    reads set x | x in rules
    ensures |r| == |rules|
    ensures forall i :: 0 <= i < |rules| ==> r[i] == rules[i].View()
  {
    if rules == [] then [] else [rules[0].View()] + Views(rules[1..])
  }

  lemma ViewsPointwise(rules: seq<Rule>, states: seq<RuleState>)
    requires |states| == |rules|
    requires forall j :: 0 <= j < |rules| ==> rules[j].View() == states[j]
    ensures Views(rules) == states
  {
  }
}
