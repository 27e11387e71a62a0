/** The server's configuration (lib/devdnsd/configuration.rb): six settings
    with defaults, the ordered list of rules, the configuration file that may
    change both, the overrides given on the command line, and the catch-all
    rule added when no rule was declared.

    The configuration file is Ruby code evaluated against the configuration
    object. It is modelled as a script of the four things such a file can
    do to the configuration: assign a setting, assign the list of rules,
    declare a rule with `add_rule`, or raise. Reading the file is not modelled; a file that does
    not exist is its own case. */
module Config {
  import opened Base
  import opened Rules

  /** The values the settings hold. Ruby's accessors are untyped; these are
      the kinds of value the settings are given, plus the two standard
      streams the log file may become. */
  datatype Setting =
    | Flag(on: bool)
    | Text(s: string)
    | Number(n: int)
    | NilValue
    | StandardOutput   // $stdout
    | StandardError    // $stderr

  /** `Logger::INFO` */
  const Info: int := 1

  /** The keys that have a setter (`attr_accessor`), apart from `rules`. */
  const SetterKeys: set<string> := {"foreground", "address", "port", "tld", "log_file", "log_level"}

  /** A name a setting value is assigned to. `rules` is the one setter
      whose value is a list of rules rather than a setting, so a setting
      value is never assigned to it. */
  type Key = k: string | k != "rules"

  datatype Settings = Settings(
    foreground: Setting,
    address: Setting,
    port: Setting,
    tld: Setting,
    logFile: Setting,
    logLevel: Setting)

  /** The values `initialize` starts from (lib/devdnsd/configuration.rb:11-17). */
  const Defaults: Settings :=
    Settings(Flag(false), Text("0.0.0.0"), Number(7771), Text("dev"), Text("/var/log/devdnsd.log"), Number(Info))

  /** The reader of the setting named `key`. */
  function Get(s: Settings, key: string): Setting
    requires key in SetterKeys
  {
    match key
    case "foreground" => s.foreground
    case "address" => s.address
    case "port" => s.port
    case "tld" => s.tld
    case "log_file" => s.logFile
    case _ => s.logLevel
  }

  /** The writer of the setting named `key` (`send("#{key}=", value)`). */
  function Set(s: Settings, key: string, value: Setting): (r: Settings)
    requires key in SetterKeys
    ensures forall k :: k in SetterKeys ==> Get(r, k) == if k == key then value else Get(s, k)
  {
    match key
    case "foreground" => s.(foreground := value)
    case "address" => s.(address := value)
    case "port" => s.(port := value)
    case "tld" => s.(tld := value)
    case "log_file" => s.(logFile := value)
    case _ => s.(logLevel := value)
  }

  /** Settings are determined by what their readers give. */
  lemma SettingsExtensional(s: Settings, t: Settings)
    requires forall k :: k in SetterKeys ==> Get(s, k) == Get(t, k)
    ensures s == t
  {
    assert Get(s, "foreground") == Get(t, "foreground");
    assert Get(s, "address") == Get(t, "address");
    assert Get(s, "port") == Get(t, "port");
    assert Get(s, "tld") == Get(t, "tld");
    assert Get(s, "log_file") == Get(t, "log_file");
    assert Get(s, "log_level") == Get(t, "log_level");
  }

  /** How evaluating the configuration file can fail: `Errno::ENOENT` and
      `LoadError` are rescued and ignored; any other exception aborts. */
  datatype Failure = FileNotFound | LoadFailure | Invalid

  /** What a configuration file does to the configuration, one statement at
      a time. */
  datatype Statement =
    | Assign(key: Key, value: Setting)                           // config.key = value
    | AssignRules(rules: seq<RuleState>)                         // config.rules = [rule, ...]
    | DeclareRule(args: seq<Value>, block: Option<Callback>)     // config.add_rule(*args, &block)
    | Raise(failure: Failure)

  datatype ConfigFile = Missing | Script(statements: seq<Statement>)

  /** The configuration as values. */
  datatype ConfigView = ConfigView(settings: Settings, rules: seq<RuleState>)

  datatype Loaded = Loaded(view: ConfigView, failure: Option<Failure>)

  /** One statement: an assignment to a key without a setter raises
      NoMethodError, and so does a rule that `Rule.create` rejects (its
      abort raises SystemExit); both are exceptions that are not rescued.
      Assigning `rules` replaces the rules declared so far. */
  function StatementSpec(c: ConfigView, s: Statement): Loaded
  {
    match s
    case Assign(key, value) =>
      if key in SetterKeys then Loaded(c.(settings := Set(c.settings, key, value)), None)
      else Loaded(c, Some(Invalid))
    case AssignRules(rules) => Loaded(c.(rules := rules), None)
    case DeclareRule(args, block) =>
      var created := CreateSpec(args, block);
      if created.Ok? then Loaded(c.(rules := c.rules + [created.value]), None)
      else Loaded(c, Some(Invalid))
    case Raise(failure) => Loaded(c, Some(failure))
  }

  /** The statements in order, until one fails; what the statements before
      it did stays done. */
  function RunScriptSpec(c: ConfigView, statements: seq<Statement>): Loaded
    decreases |statements|
  {
    if statements == [] then Loaded(c, None)
    else
      var first := StatementSpec(c, statements[0]);
      if first.failure.Some? then first else RunScriptSpec(first.view, statements[1..])
  }

  /** A log file named "STDOUT" or "STDERR" is that stream
      (lib/devdnsd/configuration.rb:27-28). */
  function MapStream(v: Setting): (r: Setting)
  {
    if v == Text("STDOUT") then StandardOutput
    else if v == Text("STDERR") then StandardError
    else v
  }

  const DefaultView: ConfigView := ConfigView(Defaults, [])

  /** Loading the configuration file (lib/devdnsd/configuration.rb:19-32):
      None when the process aborts. The stream names are mapped only when
      the whole file ran. */
  function LoadFileSpec(file: ConfigFile): Option<ConfigView>
  {
    match file
    case Missing => Some(DefaultView)
    case Script(statements) =>
      var loaded := RunScriptSpec(DefaultView, statements);
      if loaded.failure == None then
        Some(loaded.view.(settings := loaded.view.settings.(logFile := MapStream(loaded.view.settings.logFile))))
      else if loaded.failure == Some(Invalid) then None
      else Some(loaded.view)
  }

  /** `overrides.each_pair { |k, v| send("#{k}=", v) if respond_to?("#{k}=") && !v.nil? }`
      (lib/devdnsd/configuration.rb:35-39), the pairs in the hash's order. */
  function ApplyOverridesSpec(s: Settings, overrides: seq<(Key, Setting)>): Settings
    decreases |overrides|
  {
    if overrides == [] then s
    else
      var (key, value) := overrides[0];
      var next := if key in SetterKeys && value != NilValue then Set(s, key, value) else s;
      ApplyOverridesSpec(next, overrides[1..])
  }

  /** The value the last applicable override gives `key`, or `current` when
      no override applies to it: an independent statement of what the
      overrides loop achieves. */
  function LastOverride(overrides: seq<(Key, Setting)>, key: string, current: Setting): Setting
  {
    if overrides == [] then current
    else
      var last := overrides[|overrides| - 1];
      if last.0 == key && last.1 != NilValue then last.1
      else LastOverride(overrides[..|overrides| - 1], key, current)
  }

  /** `Configuration.new(file, application, overrides)`
      (lib/devdnsd/configuration.rb:10-43): None when it aborts. Overrides
      that are not a hash are ignored (None here). */
  function InitializeSpec(file: ConfigFile, overrides: Option<seq<(Key, Setting)>>): Option<ConfigView>
  {
    var loaded := LoadFileSpec(file);
    if loaded.None? then None
    else
      var settings := if overrides.Some? then ApplyOverridesSpec(loaded.value.settings, overrides.value) else loaded.value.settings;
      var rules := if |loaded.value.rules| == 0 then [DefaultRule] else loaded.value.rules;
      Some(ConfigView(settings, rules))
  }

  // ---------------------------------------------------------------------
  // Properties

  /** The default rule `add_rule(/.+/, "127.0.0.1")` declares is the rule a
      fresh `Rule` starts as. */
  lemma DefaultRuleDeclared()
    ensures CreateSpec([Re(CatchAll), Str("127.0.0.1")], None) == Ok(DefaultRule)
  {
  }

  /** Without a configuration file and overrides, the configuration is the
      defaults with the single catch-all rule
      (spec/devdnsd/configuration_spec.rb:26-35). */
  lemma DefaultsWithoutFile()
    ensures InitializeSpec(Missing, None) == Some(ConfigView(Defaults, [DefaultRule]))
    ensures Get(Defaults, "address") == Text("0.0.0.0") && Get(Defaults, "port") == Number(7771)
    ensures Get(Defaults, "tld") == Text("dev") && Get(Defaults, "log_file") == Text("/var/log/devdnsd.log")
    ensures Get(Defaults, "log_level") == Number(Info) && Get(Defaults, "foreground") == Flag(false)
  {
  }

  /** A configuration always has a rule: the rules the file declared, or
      the catch-all alone when it declared none. */
  lemma RulesNeverEmpty(file: ConfigFile, overrides: Option<seq<(Key, Setting)>>)
    requires InitializeSpec(file, overrides).Some?
    ensures var c := InitializeSpec(file, overrides).value;
      var loaded := LoadFileSpec(file).value;
      |c.rules| >= 1 &&
      (loaded.rules != [] ==> c.rules == loaded.rules) &&
      (loaded.rules == [] ==> c.rules == [DefaultRule])
  {
  }

  /** A file that is missing, or that stops on `Errno::ENOENT` or
      `LoadError`, leaves the process running; only another exception
      aborts it. */
  lemma LoadAborts(file: ConfigFile)
    ensures LoadFileSpec(file).None? <==> file.Script? && RunScriptSpec(DefaultView, file.statements).failure == Some(Invalid)
    ensures file.Missing? ==> LoadFileSpec(file) == Some(DefaultView)
  {
  }

  /** The log file is mapped to a standard stream only when the file ran to
      its end; a rescued failure keeps the name as assigned. */
  lemma LogFileStream(file: ConfigFile)
    requires file.Script? && LoadFileSpec(file).Some?
    ensures var loaded := RunScriptSpec(DefaultView, file.statements);
      var logFile := LoadFileSpec(file).value.settings.logFile;
      (loaded.failure.None? && loaded.view.settings.logFile == Text("STDOUT") ==> logFile == StandardOutput) &&
      (loaded.failure.None? && loaded.view.settings.logFile == Text("STDERR") ==> logFile == StandardError) &&
      (loaded.failure.Some? || loaded.view.settings.logFile !in {Text("STDOUT"), Text("STDERR")} ==>
        logFile == loaded.view.settings.logFile)
  {
  }

  /** Each override that has a setter and is not nil is applied, a later one
      winning over an earlier one; nil values and keys without a setter
      change nothing. */
  lemma {:induction false} OverridesApplied(s: Settings, overrides: seq<(Key, Setting)>, key: string)
    requires key in SetterKeys
    ensures Get(ApplyOverridesSpec(s, overrides), key) == LastOverride(overrides, key, Get(s, key))
    decreases |overrides|
  {
    if overrides != [] {
      var (k, v) := overrides[0];
      var next := if k in SetterKeys && v != NilValue then Set(s, k, v) else s;
      OverridesApplied(next, overrides[1..], key);
      LastOverrideFirst(overrides, key, Get(s, key));
    }
  }

  /** The last applicable override is found from the front too: the one
      among the rest, or else the first pair's when it applies. */
  lemma {:induction false} LastOverrideFirst(overrides: seq<(Key, Setting)>, key: string, current: Setting)
    requires overrides != []
    ensures var first := overrides[0];
      LastOverride(overrides, key, current) ==
      LastOverride(overrides[1..], key, if first.0 == key && first.1 != NilValue then first.1 else current)
  {
    var n := |overrides|;
    if n > 1 {
      var init := overrides[..n - 1];
      assert init[0] == overrides[0];
      assert overrides[1..][..n - 2] == init[1..];
      if !(overrides[n - 1].0 == key && overrides[n - 1].1 != NilValue) {
        LastOverrideFirst(init, key, current);
      }
    }
  }

  /** Overrides whose values are all nil leave the settings as they are. */
  lemma NilOverridesIgnored(s: Settings, overrides: seq<(Key, Setting)>)
    requires forall i :: 0 <= i < |overrides| ==> overrides[i].1 == NilValue
    ensures ApplyOverridesSpec(s, overrides) == s
  {
    forall k | k in SetterKeys ensures Get(ApplyOverridesSpec(s, overrides), k) == Get(s, k) {
      OverridesApplied(s, overrides, k);
      NoApplicableOverride(overrides, k, Get(s, k));
    }
    SettingsExtensional(ApplyOverridesSpec(s, overrides), s);
  }

  lemma {:induction false} NoApplicableOverride(overrides: seq<(Key, Setting)>, key: string, current: Setting)
    requires forall i :: 0 <= i < |overrides| ==> overrides[i].1 == NilValue
    ensures LastOverride(overrides, key, current) == current
  {
    if overrides != [] {
      NoApplicableOverride(overrides[..|overrides| - 1], key, current);
    }
  }

  /** Running a script in two parts is running the first part and, unless
      it failed, the second from where the first left off. */
  lemma {:induction false} RunScriptAppend(c: ConfigView, a: seq<Statement>, b: seq<Statement>)
    ensures var first := RunScriptSpec(c, a);
      RunScriptSpec(c, a + b) == if first.failure.Some? then first else RunScriptSpec(first.view, b)
    decreases |a|
  {
    if a == [] {
      assert a + b == b;
    } else {
      assert (a + b)[0] == a[0];
      assert (a + b)[1..] == a[1..] + b;
      var s := StatementSpec(c, a[0]);
      if s.failure.None? {
        RunScriptAppend(s.view, a[1..], b);
      }
    }
  }

  /** A script that does not assign `rules` only appends rules: those
      already declared stay, in order. */
  lemma {:induction false} ScriptKeepsRules(c: ConfigView, statements: seq<Statement>)
    requires forall i :: 0 <= i < |statements| ==> !statements[i].AssignRules?
    ensures var r := RunScriptSpec(c, statements).view.rules;
      |c.rules| <= |r| && r[..|c.rules|] == c.rules
    decreases |statements|
  {
    if statements != [] {
      var s := StatementSpec(c, statements[0]);
      if s.failure.None? {
        ScriptKeepsRules(s.view, statements[1..]);
        assert s.view.rules[..|c.rules|] == c.rules;
      }
    }
  }

  /** A file that assigns `rules` starts the list over: the assigned rules
      come first, followed by those the rest of the file declares, and the
      rules declared before the assignment are gone. */
  lemma AssignedRulesFirst(c: ConfigView, states: seq<RuleState>, rest: seq<Statement>)
    requires forall i :: 0 <= i < |rest| ==> !rest[i].AssignRules?
    ensures var r := RunScriptSpec(c, [AssignRules(states)] + rest).view.rules;
      |states| <= |r| && r[..|states|] == states
  {
    assert ([AssignRules(states)] + rest)[1..] == rest;
    ScriptKeepsRules(c.(rules := states), rest);
  }

  // ---------------------------------------------------------------------
  // The configuration object

  lemma ViewsAppend(rules: seq<Rule>, rule: Rule)
    ensures Views(rules + [rule]) == Views(rules) + [rule.View()]
  {
    ViewsPointwise(rules + [rule], Views(rules) + [rule.View()]);
  }

  /** `DevDnsd::Configuration`: the settings and the rule objects, every
      one writable (`attr_accessor`). */
  class Configuration {
    var foreground: Setting
    var address: Setting
    var port: Setting
    var tld: Setting
    var logFile: Setting
    var logLevel: Setting
    var rules: seq<Rule>

    function CurrentSettings(): Settings
      reads this
    {
      Settings(foreground, address, port, tld, logFile, logLevel)
    }

    function View(): ConfigView
      reads this, set r | r in rules
    {
      ConfigView(CurrentSettings(), Views(rules))
    }

    /** Every rule is its own object. */
    predicate Valid()
      reads this
    {
      NoDuplicates(rules)
    }

    /** The defaults (lib/devdnsd/configuration.rb:11-17). */
    constructor ()
      ensures CurrentSettings() == Defaults && rules == []
      ensures Valid()
    {
      foreground := Flag(false);
      address := Text("0.0.0.0");
      port := Number(7771);
      tld := Text("dev");
      logFile := Text("/var/log/devdnsd.log");
      logLevel := Number(Info);
      rules := [];
    }

    /** The setter of `key`. */
    method Assign(key: string, value: Setting)
      requires key in SetterKeys
      modifies this
      ensures CurrentSettings() == Set(old(CurrentSettings()), key, value) && rules == old(rules)
    {
      match key
      case "foreground" => foreground := value;
      case "address" => address := value;
      case "port" => port := value;
      case "tld" => tld := value;
      case "log_file" => logFile := value;
      case _ => logLevel := value;
    }

    /** `add_rule(*args, &block)` (lib/devdnsd/configuration.rb:45-47): the
        created rule is appended; a rejected one raises before anything is
        appended (spec/devdnsd/configuration_spec.rb:39-48). */
    method AddRule(args: seq<Value>, block: Option<Callback>) returns (error: Option<Error>)
      requires Valid()
      modifies this
      ensures Valid() && CurrentSettings() == old(CurrentSettings())
      ensures var created := CreateSpec(args, block);
        if created.Ok? then
          error.None? && |rules| == |old(rules)| + 1 && rules[..|old(rules)|] == old(rules) &&
          fresh(rules[|rules| - 1]) && Views(rules) == old(Views(rules)) + [created.value]
        else error == Some(created.error) && rules == old(rules)
    {
      var rule := Rule.Create(args, block);
      if rule.Err? {
        return Some(rule.error);
      }
      Push(rule.value);
      error := None;
    }

    /** `@rules << rule` */
    method Push(rule: Rule)
      requires Valid() && rule !in rules
      modifies this
      ensures Valid() && CurrentSettings() == old(CurrentSettings())
      ensures rules == old(rules) + [rule] && rules[..|old(rules)|] == old(rules)
      ensures Views(rules) == old(Views(rules)) + [rule.View()]
    {
      rules := rules + [rule];
      ViewsAppend(old(rules), rule);
      AppendFresh(old(rules), rule);
    }

    /** `config.rules = [rule, ...]`: the rules become new objects with the
        given fields. */
    method ReplaceRules(states: seq<RuleState>)
      modifies this
      ensures Valid() && CurrentSettings() == old(CurrentSettings())
      ensures Views(rules) == states
      ensures forall r :: r in rules ==> fresh(r)
    {
      var built: seq<Rule> := [];
      var i := 0;
      while i < |states|
        invariant 0 <= i <= |states| && |built| == i && NoDuplicates(built)
        invariant forall r :: r in built ==> fresh(r)
        invariant unchanged(this)
        invariant forall j :: 0 <= j < i ==> built[j].View() == states[j]
      {
        var rule := new Rule();
        rule.pattern, rule.types, rule.reply := states[i].pattern, states[i].types, states[i].reply;
        rule.block, rule.options := states[i].block, states[i].options;
        AppendFresh(built, rule);
        built := built + [rule];
        i := i + 1;
      }
      ViewsPointwise(built, states);
      rules := built;
    }

    /** Evaluates the configuration file's statements in order, stopping at
        the first that raises. */
    method RunScript(statements: seq<Statement>) returns (failure: Option<Failure>)
      requires Valid()
      modifies this
      ensures Valid()
      ensures View() == RunScriptSpec(old(View()), statements).view
      ensures failure == RunScriptSpec(old(View()), statements).failure
    {
      var k := 0;
      while k < |statements|
        invariant 0 <= k <= |statements| && Valid()
        invariant RunScriptSpec(old(View()), statements) == RunScriptSpec(View(), statements[k..])
      {
        assert statements[k..][0] == statements[k] && statements[k..][1..] == statements[k + 1..];
        failure := RunStatement(statements[k]);
        if failure.Some? {
          return;
        }
        k := k + 1;
      }
      assert statements[k..] == [];
      return None;
    }

    /** One statement of the configuration file. */
    method RunStatement(statement: Statement) returns (failure: Option<Failure>)
      requires Valid()
      modifies this
      ensures Valid()
      ensures View() == StatementSpec(old(View()), statement).view
      ensures failure == StatementSpec(old(View()), statement).failure
    {
      match statement {
        case Assign(key, value) =>
          if key !in SetterKeys {
            return Some(Invalid);
          }
          Assign(key, value);
        case AssignRules(states) =>
          ReplaceRules(states);
        case DeclareRule(args, block) =>
          var error := AddRule(args, block);
          if error.Some? {
            return Some(Invalid);
          }
        case Raise(f) =>
          return Some(f);
      }
      return None;
    }

    /** `Configuration.new(file, application, overrides)`
        (lib/devdnsd/configuration.rb:10-43); None when it aborts. */
    static method Initialize(file: ConfigFile, overrides: Option<seq<(Key, Setting)>>) returns (r: Option<Configuration>)
      ensures r.Some? <==> InitializeSpec(file, overrides).Some?
      ensures r.Some? ==> fresh(r.value) && r.value.Valid() && r.value.View() == InitializeSpec(file, overrides).value
    {
      var c := new Configuration();
      var aborted := c.LoadFile(file);
      if aborted {
        return None;
      }
      if overrides.Some? {
        c.ApplyOverrides(overrides.value);
      }
      if |c.rules| == 0 {
        var error := c.AddRule([Re(CatchAll), Str("127.0.0.1")], None);
        DefaultRuleDeclared();
      }
      r := Some(c);
    }

    /** Evaluating the configuration file on the defaults
        (lib/devdnsd/configuration.rb:19-32); true when the process aborts. */
    method LoadFile(file: ConfigFile) returns (aborted: bool)
      requires Valid() && View() == DefaultView
      modifies this
      ensures aborted <==> LoadFileSpec(file).None?
      ensures Valid() && (!aborted ==> View() == LoadFileSpec(file).value)
    {
      if file.Script? {
        var failure := RunScript(file.statements);
        if failure == Some(Invalid) {
          return true;
        }
        if failure.None? {
          logFile := MapStream(logFile);
        }
      }
      return false;
    }

    /** The overrides loop (lib/devdnsd/configuration.rb:35-39). */
    method ApplyOverrides(overrides: seq<(Key, Setting)>)
      modifies this
      ensures CurrentSettings() == ApplyOverridesSpec(old(CurrentSettings()), overrides) && rules == old(rules)
    {
      var k := 0;
      while k < |overrides|
        invariant 0 <= k <= |overrides| && rules == old(rules)
        invariant ApplyOverridesSpec(old(CurrentSettings()), overrides) == ApplyOverridesSpec(CurrentSettings(), overrides[k..])
      {
        assert overrides[k..][0] == overrides[k] && overrides[k..][1..] == overrides[k + 1..];
        var (key, value) := overrides[k];
        if key in SetterKeys && value != NilValue {
          Assign(key, value);
        }
        k := k + 1;
      }
    }
  }
}
