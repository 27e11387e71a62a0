# devdnsd: the rule engine and the alias manager, in Dafny

devdnsd is a small DNS server for local development domains. For every query,
it runs the configured rules. Each rule:
- pairs a hostname pattern with one or more record types;
- gives either a static reply or a block that computes one.

The server answers a query with what the matching rules reply. A query its
catch-all handler does not take gets NXDOMAIN. A companion feature adds or
removes network-interface aliases for a list of addresses. The list is either
configured or generated from a start address.

This project models that core and proves properties of it. It has these modules:

- `Base`, `Text`: Option/Result values, de-duplication, and splitting and
  joining strings.
- `Records` (`records.dfy`): the record types (section 3.2.2 of RFC 1035,
  section 2.1 of RFC 3596). `AnyClasses` is the list of handled types. `ANY`
  stands for the QTYPE `*` request (section 3.2.3 of RFC 1035). This module
  also holds the symbol mapping and the types tried for a rule.
- `Rules` (`rule.dfy`): the `Rule` object and `Rule.create`. It also holds
  `match_host`, `regexp?` and `resource_class`. Their behaviour is the one
  `spec/devdnsd/rule_spec.rb` pins.
- `Server` (`server.rb`): `execute_rule`, `finalize_reply`,
  `prepare_reply_options`, `validate_ttl`, `process_rule` and
  `process_rule_in_classes`, plus the per-query handler with its NXDOMAIN
  fallback (RCODE 3, section 4.1.1 of RFC 1035). Each is a specification
  function on values, together with a method that works on `Rule` and
  `Transaction` objects as the code does. Every method is proved equal to its
  function. Among the details modelled:
  - the MX preference (section 3.3.9 of RFC 1035);
  - the TTL default (section 3.2.1 of RFC 1035);
  - the deletion of `:ttl` and `:priority` from the rule's own options on
    every answer.
- `Config` (`configuration.dfy`): `Configuration.new` and `add_rule`.
  - Defaults come first.
  - Then the configuration file runs. It is a script of setting
    assignments, assignments of the rule list, rule declarations and
    exceptions.
  - Then `STDOUT`/`STDERR` are mapped to the standard streams.
  - Then the non-nil overrides are applied.
  - Finally, the catch-all rule is added when none was declared.
- `Addresses` (`addresses.dfy`): `ipv4?` and `ipv6?`.
  - The anchored regular expressions are stated on the pieces between dots
    and colons.
  - `\Z` also matches before a final newline.
  - The greedy prefix of the IPv4-compatible patterns is followed by `ipv4?`
    on the text after the match.
  - The IPv6 recogniser is proved to accept exactly the forms of
    `IPv6Text`, rendered by `Render`. These are the textual forms of
    section 2.2 of RFC 4291, with any number of groups and an optional
    final newline. So `"::\n"`, `"abc\n"` and `"::1.2.3.4\n"` are accepted
    too.
- `Aliases` (`aliases.dfy`): `filter_addresses`, `generate_addresses`,
  `compute_addresses`, `build_command`, `manage_labels`, `setup_management`,
  `manage_address` and `manage_aliases`.
  - The manager is a class. Its fields are:
    - the settings;
    - the memoised address list (`@addresses`);
    - the log of the commands it executed.
  - Each method is proved equal to a specification function. The lemmas
    about those functions state the promised behaviour.

The regular-expression engine, the reply blocks, `IPAddr` parsing and
printing, and Mustache rendering are parameters of the model. The catch-all
pattern `/.+/` is the exception: it is modelled concretely, as the leftmost
run of non-newline characters. `IPAddr#succ` is +1, bounded by the family's
last address.

Where the tests and the code disagree, the model follows the code:

- `Rule.create` with a block leaves the reply at `"127.0.0.1"`
  (lib/devdnsd/rule.rb:24-27). The tests expect nil.
- A wrong argument count makes `Rule.create` call `abort`, which the model
  reports as `InvalidRule`, the error the tests expect.
- `rule_spec.rb` also builds rules with `Rule.new(match, reply, type,
  options)`. That constructor is not in `rule.rb`. A rule's `options` hash,
  which `server.rb` reads and changes, starts empty.
- `rule_spec.rb:96` declares the type `[:A, :MX]`. `Rule.create` calls
  `to_sym` on it (lib/devdnsd/rule.rb:30), and an Array has no `to_sym`, so
  the code raises NoMethodError; `CreateSpec` gives `Err(NoMethod)`. A rule
  with several types (`Server.MultiTypeRule`, the several-classes case of
  `Rules.ResourceClassSpec`) therefore never comes from `add_rule`. It
  comes only from a rule whose fields are assigned directly, such as one in
  a list the configuration file assigns to `rules`.
- `rule_spec.rb:78` and `:87` expect the type to stay the String `"TYPE"`.
  The code converts it with `to_sym` (lib/devdnsd/rule.rb:26,30), so it is
  the Symbol `:TYPE`.
- `rule_spec.rb:76` expects `create` with four arguments to succeed. The
  code accepts only two or three (lib/devdnsd/rule.rb:20); four abort.
- `rule_spec.rb:45` expects `create("RULE") {}` to succeed. That is one
  argument, which the same check (lib/devdnsd/rule.rb:20) rejects.
- Loading the configuration file rescues both a missing file and `LoadError`.
  Only other exceptions abort (lib/devdnsd/configuration.rb:29-31).

Behaviours of the code that the model keeps:

- `ipv6?` accepts a single group such as `"abc"`
  (`Addresses.SingleGroupAccepted`).
- `generate_addresses` takes the successor of every address it returns, the
  last one included. A run that ends on the family's last address therefore
  raises, and the result is the empty list (`Aliases.GenerateOutcome`).
- A query that `/.+/` matches but that no rule answers gets no answer, not
  NXDOMAIN (`Server.NxDomainExactly`).

## Model

| member | source | states |
|---|---|---|
| Records.SymbolToResourceClass | spec/devdnsd/rule_spec.rb:100-110 | a tag converts exactly when it is the symbol of some class, and then it is that class's symbol; a tag that names no record type fails with InvalidRule |
| Records.SymbolRoundTrip | spec/devdnsd/rule_spec.rb:100-110 | converting a class to its symbol and back gives the class |
| Records.TriedClassesSpec | lib/devdnsd/server.rb:58-61 | the types tried are exactly the handled types that the rule declares and the query asks for (all handled types for ANY); no repeats; `ANY_CLASSES` order; at most one unless the request is ANY |
| Records.TriedSingle | lib/devdnsd/server.rb:58-59 | a query for one handled type that the rule declares tries that type alone |
| Rules.CatchAllFind | lib/devdnsd/server.rb:20 | `/.+/` matches exactly when the name has a non-newline character; the matched text is non-empty and has no newline |
| Rules.CatchAllOnNames | lib/devdnsd/server.rb:20 | on a name without newlines, `/.+/` matches exactly the non-empty names, and the match is the whole name |
| Rules.MatchHostSpec | spec/devdnsd/rule_spec.rb:49-58 | an exact pattern is truthy iff it equals the hostname and gives no match data; a regexp is truthy iff the engine finds it, and then gives the engine's match data |
| Rules.ToSym | lib/devdnsd/rule.rb:26-30 | `to_sym` succeeds exactly on strings and symbols, giving their text; otherwise NoMethodError |
| Rules.ClassesOfSpec | spec/devdnsd/rule_spec.rb:94-98 | a tag list converts iff every tag converts, and then it gives each tag's class in order |
| Rules.ResourceClassSpec | spec/devdnsd/rule_spec.rb:94-98 | `resource_class` fails with InvalidRule iff a declared tag is unknown; otherwise it lists exactly the declared classes, each once, in declaration order, and a single symbol gives a single class |
| Rules.CreateSpec | lib/devdnsd/rule.rb:17-34 | InvalidRule iff the argument count is not 2 or 3. `match` is the first argument. Without a block: reply is the 2nd argument, type the 3rd or `:A`. With a block: type is the 2nd argument, reply stays the default, block stored |
| Rules.CreateIgnoresThirdWithBlock | lib/devdnsd/rule.rb:24-27 | with a block the third argument makes no difference |
| Rules.CreateSucceeds | lib/devdnsd/rule.rb:17-34 | creation succeeds for every 2- or 3-argument declaration whose type argument is a string or symbol |
| Rules.CreateRejectsOtherTypes | lib/devdnsd/rule.rb:24-31 | a type argument that is not a string or symbol (an Array such as `[:A, :MX]`) makes creation fail with NoMethodError |
| Rules.Rule.constructor | lib/devdnsd/rule.rb:10-15 | a fresh rule has match `/.+/`, type `:A`, reply `"127.0.0.1"`, no block and no options |
| Rules.Rule.Create | lib/devdnsd/rule.rb:17-34 | assigning the fields step by step on a fresh rule gives exactly `CreateSpec`'s result or error |
| Server.NameCreateRoundTrip | lib/devdnsd/server.rb:102 | labels joined with dots, with a final dot for an absolute name, convert back to that domain name |
| Server.ValidateTtl | lib/devdnsd/server.rb:113-116 | the TTL is always positive: the integer option when it is above 0, else 300 |
| Server.DollarsToBackslashes | lib/devdnsd/server.rb:94 | same length, no `$` left; every `$` becomes `\` and every other character is kept |
| Server.BlockTakesPrecedence | lib/devdnsd/server.rb:93 | with a block, the reply is the block's result and the static reply plays no part |
| Server.SubstitutionConditions | lib/devdnsd/server.rb:94 | the reply is substituted only for a regexp rule with a truthy reply and match data holding group 0, and then with a `$`-free template of the reply's length |
| Server.ProcessRuleOutcomes | lib/devdnsd/server.rb:40-49 | responds only for a truthy reply and always for a truthy string (or A/AAAA) reply; returns false iff the reply is `false` and nil iff it is `nil`, leaving the rule unchanged |
| Server.FinalizedAnswer | lib/devdnsd/server.rb:99-110 | answer fields: an MX preference (integer `:priority` or 10) exactly for MX; the raw value for A/AAAA, a domain name otherwise; class = the type; TTL = positive integer `:ttl` or 300; the other options minus `:ttl`, `:priority` (MX) and `resource_class`; the rule keeps the rest |
| Server.FinalizeRejectsNonString | lib/devdnsd/server.rb:101-102 | a non-string reply for a type other than A/AAAA raises ArgumentError after `:priority` has already been deleted for MX |
| Server.FinalizeConsumes | lib/devdnsd/server.rb:99-110 | finalising removes `:ttl` (and `:priority` for MX) from the rule; without them TTL is 300 and preference 10 |
| Server.AnswerConsumesOptions | lib/devdnsd/server.rb:101-109 | after an answer the rule has lost `:ttl` (and `:priority` for MX) and kept every other option, so a second answer from it has TTL 300 and preference 10 |
| Server.ClassStepAnswerClass | lib/devdnsd/server.rb:62-65 | an answer sent while trying type t has class t |
| Server.AnswersMatchRequest | lib/devdnsd/server.rb:56-67 | every answer is for a handled type, and for the requested type unless the request is ANY |
| Server.UnmatchedRuleIsSilent | lib/devdnsd/server.rb:62-65 | a rule whose pattern does not match sends nothing and is unchanged, whatever types it is tried for |
| Server.NoMatchNoAnswer | lib/devdnsd/server.rb:22 | when no rule matches the name, the query gets no answer and no rule changes |
| Server.RunRulesAppend | lib/devdnsd/server.rb:22 | rules run independently: a list's answers are its first part's answers followed by the rest's, unless the first part raised |
| Server.NxDomainExactly | lib/devdnsd/server.rb:20-26 | NXDOMAIN is the result iff the name has no non-newline character or the type is not handled; it then comes with no answers and leaves the rules alone |
| Server.StaticRuleAnswersEveryType | lib/devdnsd/server.rb:62-65 | a static rule whose pattern is the queried text answers each tried type once, in order, with the raw reply for A/AAAA |
| Server.SingleRuleQuery | lib/devdnsd/server.rb:20-23 | with one rule, a handled query gets exactly what processing that rule gives |
| Server.ExactRuleAnswersOnce | lib/devdnsd/server.rb:20-26 | an exact-name A rule answers an A query for its name once: its reply, its other options, the validated TTL |
| Server.MultiTypeRule | lib/devdnsd/server.rb:56-67 | a static multi-type rule gives one answer per tried type in `ANY_CLASSES` order, and at most one for a specific request |
| Server.Transaction.Respond | lib/devdnsd/server.rb:45 | `respond!` appends the answer and leaves the failure code alone |
| Server.Transaction.Fail | lib/devdnsd/server.rb:26 | `failure!` sets the failure code and keeps the answers |
| Server.PrepareReplyOptions | lib/devdnsd/server.rb:108-110 | result and the rule's new options are those of `PrepareReplyOptionsSpec`; only the options change |
| Server.FinalizeReply | lib/devdnsd/server.rb:99-105 | the answer and the rule's new options are those of `FinalizeReplySpec` |
| Server.ProcessRule | lib/devdnsd/server.rb:40-49 | outcome and new rule state are `ProcessRuleSpec`'s; the transaction gains exactly the emitted answer |
| Server.TryClass | lib/devdnsd/server.rb:62-65 | one iteration: `process_rule` runs only when `match_host` is truthy, with match data only for regexps |
| Server.ProcessRuleInClasses | lib/devdnsd/server.rb:56-67 | the loop over the tried types gives `RuleInClassesSpec`'s answers, rule state and error |
| Server.ProcessRules | lib/devdnsd/server.rb:22 | the loop over the rule objects gives `RunRules`' answers, rule states and error |
| Server.AnswerQuery | lib/devdnsd/server.rb:20-26 | the handler gives `HandleQuerySpec`'s answers, rule states, error and NXDOMAIN code |
| Config.Set | lib/devdnsd/configuration.rb:8 | a setter changes its own setting and no other |
| Config.DefaultRuleDeclared | lib/devdnsd/configuration.rb:42 | `add_rule(/.+/, "127.0.0.1")` declares the rule a fresh `Rule` is |
| Config.DefaultsWithoutFile | spec/devdnsd/configuration_spec.rb:26-35 | without a file or overrides: address "0.0.0.0", port 7771, tld "dev", log file "/var/log/devdnsd.log", INFO, foreground false, one catch-all rule |
| Config.RulesNeverEmpty | lib/devdnsd/configuration.rb:42 | the rules are never empty: those declared, or the catch-all alone when none was declared |
| Config.LoadAborts | lib/devdnsd/configuration.rb:29-31 | the process aborts iff the file raised something other than ENOENT or LoadError; a missing file keeps the defaults |
| Config.LogFileStream | lib/devdnsd/configuration.rb:27-28 | a log file of "STDOUT"/"STDERR" becomes that stream when the file ran to its end; any other value is kept |
| Config.OverridesApplied | lib/devdnsd/configuration.rb:35-39 | each setting ends as the last non-nil override of its key, or as it was |
| Config.NilOverridesIgnored | lib/devdnsd/configuration.rb:37 | overrides that are all nil change nothing |
| Config.RunScriptAppend | lib/devdnsd/configuration.rb:23-25 | running a script in two parts is running the first and, unless it raised, the second after it |
| Config.ScriptKeepsRules | lib/devdnsd/configuration.rb:45-47 | a script that does not assign `rules` only appends rules: the rules before it stay, in order |
| Config.AssignedRulesFirst | lib/devdnsd/configuration.rb:8 | a file that assigns `rules` starts the list over: the assigned rules come first, followed by those declared after |
| Config.Configuration.constructor | lib/devdnsd/configuration.rb:11-17 | the seven fields start at their defaults, with no rules |
| Config.Configuration.Assign | lib/devdnsd/configuration.rb:8 | a setter changes its setting as `Set` does and leaves the rules |
| Config.Configuration.Push | lib/devdnsd/configuration.rb:46 | `@rules << rule` appends one distinct rule object and keeps the earlier ones and the settings |
| Config.Configuration.AddRule | lib/devdnsd/configuration.rb:45-47 | a valid declaration appends exactly one fresh rule holding `CreateSpec`'s fields and keeps the earlier rules in order; an invalid one returns its error and leaves the list unchanged |
| Config.Configuration.ReplaceRules | lib/devdnsd/configuration.rb:8 | `rules=` makes the rules distinct new objects holding exactly the assigned fields and leaves the settings |
| Config.Configuration.RunStatement | lib/devdnsd/configuration.rb:23-25 | one statement gives `StatementSpec`'s configuration and failure, and keeps the rules distinct |
| Config.Configuration.RunScript | lib/devdnsd/configuration.rb:23-25 | evaluating the statements gives `RunScriptSpec`'s configuration and failure |
| Config.Configuration.LoadFile | lib/devdnsd/configuration.rb:19-32 | aborts exactly when `LoadFileSpec` does, and otherwise gives its configuration |
| Config.Configuration.ApplyOverrides | lib/devdnsd/configuration.rb:35-39 | the overrides loop gives `ApplyOverridesSpec`'s settings and leaves the rules |
| Config.Configuration.Initialize | lib/devdnsd/configuration.rb:10-43 | construction aborts exactly when `InitializeSpec` does, and otherwise gives a fresh object with its settings and rules |
| Addresses.StripFinalNewline | lib/devdnsd/aliases.rb:71 | `\Z` ends the match at the end of the text, or before one final newline: a final newline is dropped, and a text without one is kept whole |
| Addresses.Octets | lib/devdnsd/aliases.rb:71-72 | a valid IPv4 address has four captures, each below 256 |
| Addresses.FormatIPv4Accepted | lib/devdnsd/aliases.rb:68-73 | a dotted quad, with or without a final newline, is accepted iff all four numbers are below 256, and its captures read back as those numbers |
| Addresses.IPv4Characters | lib/devdnsd/aliases.rb:71 | an accepted IPv4 address has a dot and no colon |
| Addresses.LeadingGroups | lib/devdnsd/aliases.rb:166 | the greedy `[\dA-Fa-f]{1,4}(:[\dA-Fa-f]{1,4})*` takes the longest run of leading whole groups |
| Addresses.GroupsBeforeColon | lib/devdnsd/aliases.rb:159 | the greedy prefix ending in `:` takes all the leading groups when a piece that is not a group follows them, all but the last when every piece is a group, and none when there is no leading group |
| Addresses.RenderAccepted | lib/devdnsd/aliases.rb:80-91 | every well-formed textual form is accepted by `ipv6?`: full, compressed, IPv4-embedded, compressed with embedded IPv4 |
| Addresses.AcceptedRendered | lib/devdnsd/aliases.rb:80-91 | everything `ipv6?` accepts is the rendering of a well-formed textual form |
| Addresses.NormalForm | lib/devdnsd/aliases.rb:165-169 | a text `check_normal_ipv6` accepts is a full or compressed form, with an optional final newline |
| Addresses.CompatForm | lib/devdnsd/aliases.rb:158-162 | a text `check_compat_ipv6` accepts is an IPv4-embedded form, compressed or not |
| Addresses.SingleGroupAccepted | lib/devdnsd/aliases.rb:166 | the group count is unbounded: "abc" passes as IPv6 |
| Addresses.IPv4NotIPv6 | lib/devdnsd/aliases.rb:158-169 | no text is accepted as both an IPv4 and an IPv6 address |
| Aliases.Succ | lib/devdnsd/aliases.rb:120 | `succ` exists iff the address is below its family's last, and then it is the next address of the same family |
| Aliases.Select | lib/devdnsd/aliases.rb:111 | the selected addresses are those passing the family checks; none for another kind |
| Aliases.SelectOrder | lib/devdnsd/aliases.rb:111 | selection keeps the addresses' relative order |
| Aliases.FilterAddressesSpec | lib/devdnsd/aliases.rb:109-112 | the filter keeps exactly the listed addresses passing the selected checks, each once, in first-occurrence order, and nothing for a kind other than ipv4/ipv6/all |
| Aliases.FamiliesPartition | lib/devdnsd/aliases.rb:109-112 | the `:all` filter is the union of the `:ipv4` and `:ipv6` filters, which are disjoint |
| Aliases.AliasCount | lib/devdnsd/aliases.rb:118 | `[aliases, 1].max` equals `aliases` when that is positive and 1 otherwise, and raises for nil |
| Aliases.GenerateOutcome | lib/devdnsd/aliases.rb:115-125 | NoMethodError iff the kind is not ipv4/ipv6/all and the start parses; an unparsable start, or one of the other family, gives `[]`; a non-empty result comes from a parsed start and is `max(aliases, 1)` distinct consecutive addresses from the start, of its family, all below the family's last; a valid start of the right family with room gives a non-empty result |
| Aliases.ComputeSpec | lib/devdnsd/aliases.rb:59-62 | `compute_addresses` succeeds for ipv4, ipv6 and all |
| Aliases.ComputeChoosesSource | lib/devdnsd/aliases.rb:59-62 | a present list yields exactly its filtered addresses; otherwise exactly the generated addresses, in order |
| Aliases.SetOption | lib/devdnsd/aliases.rb:21 | an option with a setter sets its setting, and only that one; `dry_run` and unknown keys change nothing |
| Aliases.OptionsApplied | lib/devdnsd/aliases.rb:21 | every option with a setter is copied into the settings, nil included |
| Aliases.OptionsKeep | lib/devdnsd/aliases.rb:21 | a setting no option names keeps its value |
| Aliases.BuildCommand | lib/devdnsd/aliases.rb:128-131 | every built command ends with " > /dev/null 2>&1" |
| Aliases.CommandTemplate | lib/devdnsd/aliases.rb:129 | a remove command uses `remove_command` only, an add command `add_command` only |
| Aliases.ManageLabels | lib/devdnsd/aliases.rb:142-144 | the labels are [remove, from] exactly for :remove and [add, to] exactly for :add |
| Aliases.SetupSpec | lib/devdnsd/aliases.rb:96-106 | setup succeeds iff the command can be built; a first call memoises the computed address list, and a list memoised earlier is kept; nothing else changes |
| Aliases.ManageAddressSpec | lib/devdnsd/aliases.rb:40-53 | the result is the setup result, whatever the command does; the command runs iff it was built and this is not a dry run |
| Aliases.ManageAllResult | lib/devdnsd/aliases.rb:27 | managing a list succeeds iff every address has a command; the settings stay |
| Aliases.ManageAllExecuted | lib/devdnsd/aliases.rb:27 | the commands of the addresses before the first without one run in order; none run in a dry run |
| Aliases.ManageAllMemo | lib/devdnsd/aliases.rb:97 | the first managed address memoises the computed list, which is kept from then on |
| Aliases.ManageAliasesOutcome | lib/devdnsd/aliases.rb:19-32 | the options are copied. The result is false when there is no address, else true iff every address has a command. The commands before the first failing address run unless this is a dry run, and the list is memoised |
| Aliases.AliasManager.ApplyOptions | lib/devdnsd/aliases.rb:21 | the setter loop leaves the settings as `ApplyOptionsSpec` gives them and changes nothing else |
| Aliases.AliasManager.Assign | lib/devdnsd/aliases.rb:21 | one setter call changes the settings as `SetOption` does |
| Aliases.AliasManager.GenerateAddresses | lib/devdnsd/aliases.rb:115-125 | the loop that advances `ip` with `succ` returns `GenerateSpec`'s result |
| Aliases.AliasManager.ComputeAddresses | lib/devdnsd/aliases.rb:59-62 | returns `ComputeSpec`'s result |
| Aliases.AliasManager.SetupManagement | lib/devdnsd/aliases.rb:96-106 | result, command and new state are `SetupSpec`'s, with the list `compute_addresses` gives |
| Aliases.AliasManager.ManageAddress | lib/devdnsd/aliases.rb:40-53 | result and new state are `ManageAddressSpec`'s |
| Aliases.AliasManager.ManageAll | lib/devdnsd/aliases.rb:27 | the `all?` loop gives `ManageAllSpec`'s result and state |
| Aliases.AliasManager.ManageAliases | lib/devdnsd/aliases.rb:19-32 | result and new state are `ManageAliasesSpec`'s |

## Left out

- The RubyDNS server: sockets, the asynchronous flag and the start and stop
  events (lib/devdnsd/server.rb:14-30,72-80). The per-query handler is a
  method over a `Transaction` object that records answers and the failure
  code.
- Ruby's regular-expression engine beyond `/.+/`. `Regexp#match` and
  `String#gsub` are parameters (`RegexEngine`), so group substitution and
  anchors are not interpreted.
- `Resolv::DNS::Name.create` is reduced to the labels between dots and the
  final dot. Escapes and length limits are not modelled.
- Lazier's `to_integer` on values other than integers gives the default. The
  model does not convert numeric strings or floats.
- Logging, translated messages and the progress prefix of
  `setup_management` (`log_management`, `log_management_error`, the message
  built at lib/devdnsd/aliases.rb:98-101): they only produce text for the
  log.
- The exit status of the alias commands. The shell is the log of executed
  commands, and `manage_address` ignores the status anyway.
- `IPAddr` parsing and printing, and Mustache rendering, are parameters.
  Only their ArgumentError cases are modelled, as None.
- `compute_addresses` with a kind other than ipv4, ipv6 and all: without an
  address list, `generate_addresses` sends `"#{type}?"` to the start address
  and the model gives NoMethodError, as it does for a kind `IPAddr` has no
  predicate for. With a present list, `filter_addresses` finds no filter
  and the result is `[]` (lib/devdnsd/aliases.rb:110; `Aliases.Select`).
  The documentation of `compute_addresses` (lib/devdnsd/aliases.rb:57) says
  other kinds consider all addresses; the code does not, and the model
  follows the code. A kind that names one of `IPAddr`'s other predicates
  (`private?`, `loopback?`, …) is not covered.
- Option values of other types than the settings hold (Ruby values are
  untyped).
- A setting value (a flag, text or number) assigned to `rules`, whether by
  the configuration file or by an override: the `Config.Key` type excludes
  the name `rules` from setting assignments and overrides. The file's
  assignment of a list of rules (`config.rules = [...]`) is modelled
  (`Config.AssignRules`). The assigned list is made of distinct new rule
  objects; a list holding the same rule object twice is not modelled.
- The configuration file's Ruby code is a script of setting assignments,
  rule-list assignments, rule declarations and exceptions. Reading it from disk and `Pathname#realpath`
  are not modelled.
- lib/devdnsd/osx.rb, lib/devdnsd/system.rb, lib/devdnsd/logger.rb and
  lib/devdnsd/application.rb (daemon control, launchd and resolver files,
  the logger, and an older form of the rule handler) are not part of this
  model.
