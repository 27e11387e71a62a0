/** Interface aliases (lib/devdnsd/aliases.rb): the addresses to alias,
    either the configured list filtered by family or a run of consecutive
    addresses generated from a start address, and the commands that add or
    remove each alias.

    The IP address library (`IPAddr`), the template engine (`Mustache`)
    and the shell are not part of this model: the first two are parameters
    (`IpLibrary`, `Renderer`) and the shell is the log of commands the
    manager executes. */
module Aliases {
  import opened Base
  import opened Addresses

  // ---------------------------------------------------------------------
  // Addresses as IPAddr values

  datatype Family = IPv4Family | IPv6Family

  /** The last address of a family (`IN4MASK`, `IN6MASK`). */
  function MaxAddress(f: Family): nat
  {
    match f
    case IPv4Family => 0xFFFF_FFFF
    case IPv6Family => 0xFFFF_FFFF_FFFF_FFFF_FFFF_FFFF_FFFF_FFFF
  }

  datatype IpAddress = IpAddress(family: Family, value: nat)

  /** `IPAddr#succ`: the next address; None where `IPAddr#set` raises
      InvalidAddressError (an ArgumentError) past the family's last
      address. */
  function Succ(ip: IpAddress): (next: Option<IpAddress>)
    ensures next.Some? <==> ip.value < MaxAddress(ip.family)
    ensures next.Some? ==> next.value == IpAddress(ip.family, ip.value + 1)
  {
    if ip.value + 1 > MaxAddress(ip.family) then None else Some(IpAddress(ip.family, ip.value + 1))
  }

  /** `IPAddr.new` (None where it raises an ArgumentError) and `IPAddr#to_s`. */
  datatype IpLibrary = IpLibrary(parse: string -> Option<IpAddress>, show: IpAddress -> string)

  /** The `type` argument of `compute_addresses`: `:ipv4`, `:ipv6`, `:all`
      or any other symbol. */
  datatype AddressKind = IPv4Kind | IPv6Kind | AllKinds | OtherKind(name: string)

  /** The settings the alias manager reads from the application
      configuration; `None` is Ruby's nil. */
  datatype AliasConfig = AliasConfig(
    addresses: Option<seq<string>>,
    startAddress: Option<string>,
    aliases: Option<int>,
    interface: Option<string>,
    addCommand: Option<string>,
    removeCommand: Option<string>)

  /** `ensure_string`: nil becomes the empty string. */
  function EnsureString(s: Option<string>): string
  {
    if s.Some? then s.value else ""
  }

  // ---------------------------------------------------------------------
  // filter_addresses

  /** Whether the family checks selected by `kind` accept `address`. */
  predicate Selects(kind: AddressKind, address: string)
  {
    ((kind == IPv4Kind || kind == AllKinds) && IsIPv4(address))
    || ((kind == IPv6Kind || kind == AllKinds) && IsIPv6(address))
  }

  /** `Array#select` with the family checks. */
  function Select(addresses: seq<string>, kind: AddressKind): (r: seq<string>)
    ensures forall a :: a in r <==> a in addresses && Selects(kind, a)
    ensures kind.OtherKind? ==> r == []
  {
    if addresses == [] then []
    else (if Selects(kind, addresses[0]) then [addresses[0]] else []) + Select(addresses[1..], kind)
  }

  /** `filter_addresses` (lib/devdnsd/aliases.rb:109-112). */
  function FilterAddresses(addresses: seq<string>, kind: AddressKind): seq<string>
  {
    Dedup(Select(addresses, kind))
  }

  /** Selection keeps the relative order of the addresses. */
  lemma {:induction false} SelectOrder(addresses: seq<string>, kind: AddressKind, x: string, y: string)
    requires x in Select(addresses, kind) && y in Select(addresses, kind)
    requires IndexOf(Select(addresses, kind), x) < IndexOf(Select(addresses, kind), y)
    ensures IndexOf(addresses, x) < IndexOf(addresses, y)
  {
    var rest := addresses[1..];
    var head := if Selects(kind, addresses[0]) then [addresses[0]] else [];
    var sel := Select(addresses, kind);
    assert sel == head + Select(rest, kind);
    if x != addresses[0] && y != addresses[0] {
      SkipHead(head, Select(rest, kind), x);
      SkipHead(head, Select(rest, kind), y);
      SelectOrder(rest, kind, x, y);
    }
  }

  lemma SkipHead<T>(head: seq<T>, rest: seq<T>, x: T)
    requires x !in head && x in rest
    ensures IndexOf(head + rest, x) == |head| + IndexOf(rest, x)
    decreases |head|
  {
    if head != [] {
      assert (head + rest)[1..] == head[1..] + rest;
      SkipHead(head[1..], rest, x);
    } else {
      assert head + rest == rest;
    }
  }

  /** The filtered list holds exactly the configured addresses that pass
      the selected family checks (none for a kind other than IPv4, IPv6 or
      all), each once, in the order of their first occurrence. */
  lemma FilterAddressesSpec(addresses: seq<string>, kind: AddressKind)
    ensures forall a :: a in FilterAddresses(addresses, kind) <==> a in addresses && Selects(kind, a)
    ensures NoDuplicates(FilterAddresses(addresses, kind))
    ensures forall i, j :: 0 <= i < j < |FilterAddresses(addresses, kind)| ==>
      IndexOf(addresses, FilterAddresses(addresses, kind)[i]) <
      IndexOf(addresses, FilterAddresses(addresses, kind)[j])
    ensures kind.OtherKind? ==> FilterAddresses(addresses, kind) == []
  {
    var sel := Select(addresses, kind);
    DedupMembers(sel);
    DedupOrder(sel);
    forall i, j | 0 <= i < j < |Dedup(sel)|
      ensures IndexOf(addresses, Dedup(sel)[i]) < IndexOf(addresses, Dedup(sel)[j])
    {
      SelectOrder(addresses, kind, Dedup(sel)[i], Dedup(sel)[j]);
    }
  }

  /** The `:all` filter is the union of the `:ipv4` and `:ipv6` filters,
      which have no address in common. */
  lemma FamiliesPartition(addresses: seq<string>)
    ensures forall a :: a in FilterAddresses(addresses, AllKinds) <==>
      a in FilterAddresses(addresses, IPv4Kind) || a in FilterAddresses(addresses, IPv6Kind)
    ensures forall a :: !(a in FilterAddresses(addresses, IPv4Kind) && a in FilterAddresses(addresses, IPv6Kind))
  {
    FilterAddressesSpec(addresses, AllKinds);
    FilterAddressesSpec(addresses, IPv4Kind);
    FilterAddressesSpec(addresses, IPv6Kind);
    forall a | a in FilterAddresses(addresses, IPv4Kind)
      ensures a !in FilterAddresses(addresses, IPv6Kind)
    {
      IPv4NotIPv6(a);
    }
  }

  // ---------------------------------------------------------------------
  // generate_addresses and compute_addresses

  /** `count` addresses counting up from `start`. */
  function Consecutive(start: IpAddress, count: nat): (r: seq<IpAddress>)
    ensures |r| == count
  {
    seq(count, i requires 0 <= i < count => IpAddress(start.family, start.value + i))
  }

  /** `[aliases, 1].max`, or None where comparing nil raises an
      ArgumentError. */
  function AliasCount(aliases: Option<int>): (n: Option<nat>)
    ensures n.Some? <==> aliases.Some?
    ensures n.Some? ==> n.value >= 1 && n.value >= aliases.value
    ensures n.Some? && aliases.value >= 1 ==> n.value == aliases.value
    ensures n.Some? && aliases.value < 1 ==> n.value == 1
  {
    match aliases
    case None => None
    case Some(count) => Some(if count > 1 then count as nat else 1)
  }

  /** Whether the start address belongs to the family `kind` asks for. */
  predicate FamilyAccepted(kind: AddressKind, ip: IpAddress)
  {
    (kind == IPv4Kind ==> ip.family == IPv4Family) && (kind == IPv6Kind ==> ip.family == IPv6Family)
  }

  /** What `generate_addresses` (lib/devdnsd/aliases.rb:115-125) returns:
      the empty list wherever an ArgumentError is rescued (an invalid
      start, a start of the other family, nil aliases, or a successor past
      the family's last address); a NoMethodError escapes for a kind that
      names no IPAddr predicate. */
  function GenerateSpec(lib: IpLibrary, config: AliasConfig, kind: AddressKind): Result<seq<IpAddress>>
  {
    match lib.parse(EnsureString(config.startAddress))
    case None => Ok([])
    case Some(start) =>
      if kind.OtherKind? then Err(NoMethod)
      else if !FamilyAccepted(kind, start) then Ok([])
      else match AliasCount(config.aliases)
        case None => Ok([])
        case Some(count) =>
          // the block takes the successor of every address it returns,
          // the last one included
          if start.value + count > MaxAddress(start.family) then Ok([])
          else Ok(Consecutive(start, count))
  }

  /** The generated addresses: `max(aliases, 1)` consecutive addresses of
      the start address's family, from the start address on, all below the
      family's last address; none for a start address that does not parse
      or that belongs to the other family. */
  lemma GenerateOutcome(lib: IpLibrary, config: AliasConfig, kind: AddressKind)
    ensures GenerateSpec(lib, config, kind).Err? <==>
      kind.OtherKind? && lib.parse(EnsureString(config.startAddress)).Some?
    ensures lib.parse(EnsureString(config.startAddress)).None? ==> GenerateSpec(lib, config, kind) == Ok([])
    ensures var start := lib.parse(EnsureString(config.startAddress));
      start.Some? && !kind.OtherKind? && !FamilyAccepted(kind, start.value) ==> GenerateSpec(lib, config, kind) == Ok([])
    ensures var r := GenerateSpec(lib, config, kind);
      r.Ok? && r.value != [] ==>
        lib.parse(EnsureString(config.startAddress)).Some? &&
        var start := lib.parse(EnsureString(config.startAddress)).value;
        FamilyAccepted(kind, start) && config.aliases.Some? &&
        |r.value| == AliasCount(config.aliases).value &&
        NoDuplicates(r.value) &&
        forall i :: 0 <= i < |r.value| ==>
          r.value[i].family == start.family && r.value[i].value == start.value + i &&
          r.value[i].value < MaxAddress(start.family)
    ensures var start := lib.parse(EnsureString(config.startAddress));
      start.Some? && !kind.OtherKind? && FamilyAccepted(kind, start.value) && config.aliases.Some? &&
      start.value.value + AliasCount(config.aliases).value <= MaxAddress(start.value.family) ==>
        GenerateSpec(lib, config, kind).Ok? && GenerateSpec(lib, config, kind).value != []
  {
  }

  datatype Address = Listed(text: string) | Generated(ip: IpAddress)

  /** `address.to_s`. */
  function AddressText(lib: IpLibrary, address: Address): string
  {
    match address
    case Listed(text) => text
    case Generated(ip) => lib.show(ip)
  }

  function ListedAll(texts: seq<string>): (r: seq<Address>)
    ensures |r| == |texts| && forall i :: 0 <= i < |r| ==> r[i] == Listed(texts[i])
  {
    seq(|texts|, i requires 0 <= i < |texts| => Listed(texts[i]))
  }

  function GeneratedAll(ips: seq<IpAddress>): (r: seq<Address>)
    ensures |r| == |ips| && forall i :: 0 <= i < |r| ==> r[i] == Generated(ips[i])
  {
    seq(|ips|, i requires 0 <= i < |ips| => Generated(ips[i]))
  }

  /** `config.addresses.present?`: configured and not empty. */
  predicate Present(addresses: Option<seq<string>>)
  {
    addresses.Some? && addresses.value != []
  }

  /** What `compute_addresses` (lib/devdnsd/aliases.rb:59-62) returns. */
  function ComputeSpec(lib: IpLibrary, config: AliasConfig, kind: AddressKind): (r: Result<seq<Address>>)
    ensures !kind.OtherKind? ==> r.Ok?
  {
    if Present(config.addresses) then Ok(ListedAll(FilterAddresses(config.addresses.value, kind)))
    else match GenerateSpec(lib, config, kind)
      case Err(e) => Err(e)
      case Ok(ips) => Ok(GeneratedAll(ips))
  }

  /** A present address list is filtered and never generated from; an
      absent or empty one gives the generated addresses. */
  lemma ComputeChoosesSource(lib: IpLibrary, config: AliasConfig, kind: AddressKind)
    requires !kind.OtherKind?
    ensures Present(config.addresses) ==>
      forall a :: a in ComputeSpec(lib, config, kind).value <==>
        a.Listed? && a.text in config.addresses.value && Selects(kind, a.text)
    ensures !Present(config.addresses) ==>
      forall a :: a in ComputeSpec(lib, config, kind).value ==> a.Generated?
    ensures !Present(config.addresses) ==>
      ComputeSpec(lib, config, kind).value == GeneratedAll(GenerateSpec(lib, config, kind).value)
  {
    if Present(config.addresses) {
      var filtered := FilterAddresses(config.addresses.value, kind);
      FilterAddressesSpec(config.addresses.value, kind);
      var r := ComputeSpec(lib, config, kind).value;
      forall a ensures a in r <==> a.Listed? && a.text in config.addresses.value && Selects(kind, a.text) {
        if a.Listed? && a.text in filtered {
          var i :| 0 <= i < |filtered| && filtered[i] == a.text;
          assert r[i] == a;
        }
      }
    }
  }

  // ---------------------------------------------------------------------
  // Options

  /** An entry of the options hash given to `manage_aliases`: one per
      setting the configuration has a setter for, `dry_run`, and any other
      key. */
  datatype AliasOption =
    | AddressesOption(addresses: Option<seq<string>>)
    | StartAddressOption(start: Option<string>)
    | AliasesOption(count: Option<int>)
    | InterfaceOption(name: Option<string>)
    | AddCommandOption(template: Option<string>)
    | RemoveCommandOption(template: Option<string>)
    | DryRunOption(on: Option<bool>)
    | OtherOption(key: string)

  const SetterKeys: set<string> :=
    {"addresses", "start_address", "aliases", "interface", "add_command", "remove_command"}

  function Key(o: AliasOption): string
  {
    match o
    case AddressesOption(_) => "addresses"
    case StartAddressOption(_) => "start_address"
    case AliasesOption(_) => "aliases"
    case InterfaceOption(_) => "interface"
    case AddCommandOption(_) => "add_command"
    case RemoveCommandOption(_) => "remove_command"
    case DryRunOption(_) => "dry_run"
    case OtherOption(key) => key
  }

  /** A hash has each key once, and a key other than the known ones
      carries no setter. */
  predicate ValidOptions(options: seq<AliasOption>)
  {
    (forall i, j :: 0 <= i < j < |options| ==> Key(options[i]) != Key(options[j]))
    && (forall i :: 0 <= i < |options| && options[i].OtherOption? ==>
          options[i].key !in SetterKeys && options[i].key != "dry_run")
  }

  /** The current value of a setting, as the option that would set it. */
  function Setting(config: AliasConfig, key: string): AliasOption
    requires key in SetterKeys
  {
    if key == "addresses" then AddressesOption(config.addresses)
    else if key == "start_address" then StartAddressOption(config.startAddress)
    else if key == "aliases" then AliasesOption(config.aliases)
    else if key == "interface" then InterfaceOption(config.interface)
    else if key == "add_command" then AddCommandOption(config.addCommand)
    else RemoveCommandOption(config.removeCommand)
  }

  /** `config.send("#{k}=", v) if config.respond_to?("#{k}=")`. */
  function SetOption(config: AliasConfig, o: AliasOption): (r: AliasConfig)
    ensures Key(o) in SetterKeys && !o.OtherOption? ==> Setting(r, Key(o)) == o
    ensures forall k :: k in SetterKeys && k != Key(o) ==> Setting(r, k) == Setting(config, k)
    ensures o.DryRunOption? || o.OtherOption? ==> r == config
  {
    match o
    case AddressesOption(v) => config.(addresses := v)
    case StartAddressOption(v) => config.(startAddress := v)
    case AliasesOption(v) => config.(aliases := v)
    case InterfaceOption(v) => config.(interface := v)
    case AddCommandOption(v) => config.(addCommand := v)
    case RemoveCommandOption(v) => config.(removeCommand := v)
    case DryRunOption(_) => config
    case OtherOption(_) => config
  }

  /** The configuration after the setter loop of `manage_aliases`
      (lib/devdnsd/aliases.rb:21). */
  function ApplyOptionsSpec(config: AliasConfig, options: seq<AliasOption>): AliasConfig
  {
    if options == [] then config
    else SetOption(ApplyOptionsSpec(config, options[..|options| - 1]), options[|options| - 1])
  }

  /** Every option with a setter is copied, nil values included. */
  lemma {:induction false} OptionsApplied(config: AliasConfig, options: seq<AliasOption>)
    requires ValidOptions(options)
    ensures forall i :: 0 <= i < |options| && Key(options[i]) in SetterKeys ==>
      Setting(ApplyOptionsSpec(config, options), Key(options[i])) == options[i]
  {
    if options != [] {
      var n := |options| - 1;
      var init := options[..n];
      assert ValidOptions(init);
      OptionsApplied(config, init);
      forall i | 0 <= i < n && Key(options[i]) in SetterKeys
        ensures Setting(ApplyOptionsSpec(config, options), Key(options[i])) == options[i]
      {
        assert init[i] == options[i];
        assert Key(options[n]) != Key(options[i]);
      }
    }
  }

  /** A setting no option names keeps its value. */
  lemma {:induction false} OptionsKeep(config: AliasConfig, options: seq<AliasOption>, k: string)
    requires k in SetterKeys
    requires forall i :: 0 <= i < |options| ==> Key(options[i]) != k
    ensures Setting(ApplyOptionsSpec(config, options), k) == Setting(config, k)
  {
    if options != [] {
      var n := |options| - 1;
      var before := ApplyOptionsSpec(config, options[..n]);
      assert Key(options[n]) != k;
      OptionsKeep(config, options[..n], k);
      assert Setting(SetOption(before, options[n]), k) == Setting(before, k);
    }
  }

  /** `options[:dry_run]`, as a condition. */
  function DryRun(options: seq<AliasOption>): bool
  {
    if options == [] then false
    else if options[0].DryRunOption? then options[0].on == Some(true)
    else DryRun(options[1..])
  }

  // ---------------------------------------------------------------------
  // Commands

  datatype Operation = Add | Remove

  /** The redirection `build_command` appends. */
  const Silenced: string := " > /dev/null 2>&1"

  /** `Mustache.render(template, {interface:, address:})`; None where it
      raises an ArgumentError. */
  type Renderer = (Option<string>, Option<string>, string) -> Option<string>

  /** `build_command` (lib/devdnsd/aliases.rb:128-131). */
  function BuildCommand(render: Renderer, config: AliasConfig, op: Operation, address: string): (command: Option<string>)
    ensures command.Some? ==>
      |command.value| >= |Silenced| && command.value[|command.value| - |Silenced|..] == Silenced
  {
    var template := if op == Remove then config.removeCommand else config.addCommand;
    match render(template, config.interface, address)
    case None => None
    case Some(text) => Some(text + Silenced)
  }

  /** A remove command depends on `remove_command` and not on
      `add_command`, an add command the other way round. */
  lemma CommandTemplate(render: Renderer, config: AliasConfig, address: string, other: Option<string>)
    ensures BuildCommand(render, config.(addCommand := other), Remove, address) ==
      BuildCommand(render, config, Remove, address)
    ensures BuildCommand(render, config.(removeCommand := other), Add, address) ==
      BuildCommand(render, config, Add, address)
    ensures BuildCommand(render, config, Remove, address) ==
      BuildCommand(render, config.(addCommand := config.removeCommand), Add, address)
  {
  }

  datatype Label = RemoveLabel | FromLabel | AddLabel | ToLabel

  /** `manage_labels` (lib/devdnsd/aliases.rb:142-144): the verb and the
      preposition of the error message for an operation. */
  function ManageLabels(op: Operation): (labels: (Label, Label))
    ensures labels.0 == RemoveLabel <==> op.Remove?
    ensures labels.0 == AddLabel <==> op.Add?
    ensures labels.1 == FromLabel <==> op.Remove?
    ensures labels.1 == ToLabel <==> op.Add?
  {
    if op.Remove? then (RemoveLabel, FromLabel) else (AddLabel, ToLabel)
  }

  // ---------------------------------------------------------------------
  // The manager's state and what its operations do to it

  /** The settings, the memoised address list (`@addresses`) and the
      commands executed so far. */
  datatype AliasState = AliasState(config: AliasConfig, memo: Option<seq<Address>>, executed: seq<string>)

  predicate Renders(lib: IpLibrary, render: Renderer, config: AliasConfig, op: Operation, address: Address)
  {
    BuildCommand(render, config, op, AddressText(lib, address)).Some?
  }

  function CommandFor(lib: IpLibrary, render: Renderer, config: AliasConfig, op: Operation, address: Address): string
  {
    match BuildCommand(render, config, op, AddressText(lib, address))
    case Some(command) => command
    case None => ""
  }

  /** `setup_management` (lib/devdnsd/aliases.rb:96-106): whether the
      command could be built, the command, and the new state. `computed` is
      what `compute_addresses` gives for the current settings; it is
      memoised by the first call and kept from then on. */
  function SetupSpec(lib: IpLibrary, render: Renderer, s: AliasState, computed: seq<Address>, op: Operation, address: Address): (r: (bool, string, AliasState))
    ensures r.0 <==> Renders(lib, render, s.config, op, address)
    ensures r.2.config == s.config && r.2.executed == s.executed
    ensures r.2.memo.Some? && (s.memo.Some? ==> r.2.memo == s.memo)
    ensures s.memo.None? ==> r.2.memo == Some(computed)
  {
    var memo := if s.memo.Some? then s.memo else Some(computed);
    (Renders(lib, render, s.config, op, address), CommandFor(lib, render, s.config, op, address), s.(memo := memo))
  }

  /** `manage_address` (lib/devdnsd/aliases.rb:40-53): the setup result,
      whatever the command's exit status; the command runs only when it
      was built and this is not a dry run. */
  function ManageAddressSpec(lib: IpLibrary, render: Renderer, s: AliasState, computed: seq<Address>, op: Operation, address: Address, dryRun: bool): (r: (bool, AliasState))
    ensures r.0 <==> Renders(lib, render, s.config, op, address)
    ensures r.1.config == s.config
    ensures dryRun || !r.0 ==> r.1.executed == s.executed
    ensures !dryRun && r.0 ==> r.1.executed == s.executed + [CommandFor(lib, render, s.config, op, address)]
  {
    var setup := SetupSpec(lib, render, s, computed, op, address);
    var after := setup.2;
    if setup.0 && !dryRun then (true, after.(executed := after.executed + [setup.1]))
    else (setup.0, after)
  }

  /** `addresses.all? { |address| manage_address(...) }`: stops at the
      first address whose management fails. */
  function ManageAllSpec(lib: IpLibrary, render: Renderer, s: AliasState, computed: seq<Address>, op: Operation, addresses: seq<Address>, dryRun: bool): (bool, AliasState)
    decreases |addresses|
  {
    if addresses == [] then (true, s)
    else
      var step := ManageAddressSpec(lib, render, s, computed, op, addresses[0], dryRun);
      if !step.0 then (false, step.1)
      else ManageAllSpec(lib, render, step.1, computed, op, addresses[1..], dryRun)
  }

  /** `manage_aliases` (lib/devdnsd/aliases.rb:19-32). */
  function ManageAliasesSpec(lib: IpLibrary, render: Renderer, s: AliasState, op: Operation, options: seq<AliasOption>): (bool, AliasState)
  {
    var configured := s.(config := ApplyOptionsSpec(s.config, options));
    var addresses := ComputeSpec(lib, configured.config, AllKinds).value;
    if addresses == [] then (false, configured)
    else ManageAllSpec(lib, render, configured, addresses, op, addresses, DryRun(options))
  }

  /** How many addresses at the start of the list have a command. */
  function RenderedPrefix(lib: IpLibrary, render: Renderer, config: AliasConfig, op: Operation, addresses: seq<Address>): (n: nat)
    ensures n <= |addresses|
    ensures forall i :: 0 <= i < n ==> Renders(lib, render, config, op, addresses[i])
    ensures n < |addresses| ==> !Renders(lib, render, config, op, addresses[n])
  {
    if addresses == [] || !Renders(lib, render, config, op, addresses[0]) then 0
    else 1 + RenderedPrefix(lib, render, config, op, addresses[1..])
  }

  function CommandsFor(lib: IpLibrary, render: Renderer, config: AliasConfig, op: Operation, addresses: seq<Address>): (r: seq<string>)
    ensures |r| == |addresses|
    ensures forall i :: 0 <= i < |r| ==> r[i] == CommandFor(lib, render, config, op, addresses[i])
  {
    seq(|addresses|, i requires 0 <= i < |addresses| => CommandFor(lib, render, config, op, addresses[i]))
  }

  /** Managing a list succeeds exactly when every address has a command,
      and leaves the configuration alone. */
  lemma {:induction false} ManageAllResult(lib: IpLibrary, render: Renderer, s: AliasState, computed: seq<Address>, op: Operation, addresses: seq<Address>, dryRun: bool)
    ensures var r := ManageAllSpec(lib, render, s, computed, op, addresses, dryRun);
      r.0 <==> forall i :: 0 <= i < |addresses| ==> Renders(lib, render, s.config, op, addresses[i])
    ensures ManageAllSpec(lib, render, s, computed, op, addresses, dryRun).1.config == s.config
    decreases |addresses|
  {
    if addresses != [] {
      var step := ManageAddressSpec(lib, render, s, computed, op, addresses[0], dryRun);
      var rest := addresses[1..];
      if step.0 {
        ManageAllResult(lib, render, step.1, computed, op, rest, dryRun);
        forall i | 0 <= i < |addresses| ensures
          (forall j :: 0 <= j < |rest| ==> Renders(lib, render, s.config, op, rest[j])) ==>
          Renders(lib, render, s.config, op, addresses[i])
        {
          if i > 0 {
            assert addresses[i] == rest[i - 1];
          }
        }
      }
    }
  }

  /** The commands of the addresses before the first without one are
      executed in order; none in a dry run. */
  lemma ManageAllExecuted(lib: IpLibrary, render: Renderer, s: AliasState, computed: seq<Address>, op: Operation, addresses: seq<Address>, dryRun: bool)
    ensures ManageAllSpec(lib, render, s, computed, op, addresses, dryRun).1.executed == s.executed +
      (if dryRun then []
       else CommandsFor(lib, render, s.config, op, addresses[..RenderedPrefix(lib, render, s.config, op, addresses)]))
  {
    if dryRun {
      ManageAllDry(lib, render, s, computed, op, addresses);
    } else {
      ManageAllLive(lib, render, s, computed, op, addresses);
    }
  }

  lemma {:induction false} ManageAllDry(lib: IpLibrary, render: Renderer, s: AliasState, computed: seq<Address>, op: Operation, addresses: seq<Address>)
    ensures ManageAllSpec(lib, render, s, computed, op, addresses, true).1.executed == s.executed
    decreases |addresses|
  {
    if addresses != [] {
      var step := ManageAddressSpec(lib, render, s, computed, op, addresses[0], true);
      if step.0 {
        ManageAllDry(lib, render, step.1, computed, op, addresses[1..]);
      }
    }
  }

  lemma {:induction false} ManageAllLive(lib: IpLibrary, render: Renderer, s: AliasState, computed: seq<Address>, op: Operation, addresses: seq<Address>)
    ensures ManageAllSpec(lib, render, s, computed, op, addresses, false).1.executed == s.executed +
      CommandsFor(lib, render, s.config, op, addresses[..RenderedPrefix(lib, render, s.config, op, addresses)])
    decreases |addresses|
  {
    if addresses == [] {
      assert CommandsFor(lib, render, s.config, op, addresses[..0]) == [];
    } else {
      var step := ManageAddressSpec(lib, render, s, computed, op, addresses[0], false);
      if step.0 {
        ManageAllLive(lib, render, step.1, computed, op, addresses[1..]);
        ManageAllLiveStep(lib, render, s, computed, op, addresses);
      } else {
        assert CommandsFor(lib, render, s.config, op, addresses[..0]) == [];
      }
    }
  }

  /** The inductive step of `ManageAllLive`: the first address's command,
      then those of the rest. */
  lemma ManageAllLiveStep(lib: IpLibrary, render: Renderer, s: AliasState, computed: seq<Address>, op: Operation, addresses: seq<Address>)
    requires addresses != []
    requires ManageAddressSpec(lib, render, s, computed, op, addresses[0], false).0
    requires var after := ManageAddressSpec(lib, render, s, computed, op, addresses[0], false).1;
      var rest := addresses[1..];
      ManageAllSpec(lib, render, after, computed, op, rest, false).1.executed == after.executed +
        CommandsFor(lib, render, after.config, op, rest[..RenderedPrefix(lib, render, after.config, op, rest)])
    ensures ManageAllSpec(lib, render, s, computed, op, addresses, false).1.executed == s.executed +
      CommandsFor(lib, render, s.config, op, addresses[..RenderedPrefix(lib, render, s.config, op, addresses)])
  {
    var rest := addresses[1..];
    var c := CommandFor(lib, render, s.config, op, addresses[0]);
    var cs := CommandsFor(lib, render, s.config, op, rest[..RenderedPrefix(lib, render, s.config, op, rest)]);
    CommandsRendered(lib, render, s.config, op, addresses);
    ExecutedAssoc(s.executed, c, cs);
  }

  /** The commands of the rendered prefix of a list whose first address
      renders: that address's command, then those of the rest. */
  lemma CommandsRendered(lib: IpLibrary, render: Renderer, config: AliasConfig, op: Operation, addresses: seq<Address>)
    requires addresses != [] && Renders(lib, render, config, op, addresses[0])
    ensures var rest := addresses[1..];
      CommandsFor(lib, render, config, op, addresses[..RenderedPrefix(lib, render, config, op, addresses)]) ==
      [CommandFor(lib, render, config, op, addresses[0])] +
      CommandsFor(lib, render, config, op, rest[..RenderedPrefix(lib, render, config, op, rest)])
  {
    var n := RenderedPrefix(lib, render, config, op, addresses);
    assert n == 1 + RenderedPrefix(lib, render, config, op, addresses[1..]);
    CommandsPrefix(lib, render, config, op, addresses, n);
  }

  lemma ExecutedAssoc(executed: seq<string>, c: string, cs: seq<string>)
    ensures executed + [c] + cs == executed + ([c] + cs)
  {
  }

  lemma CommandsPrefix(lib: IpLibrary, render: Renderer, config: AliasConfig, op: Operation, addresses: seq<Address>, n: nat)
    requires 1 <= n <= |addresses|
    ensures CommandsFor(lib, render, config, op, addresses[..n]) ==
      [CommandFor(lib, render, config, op, addresses[0])] + CommandsFor(lib, render, config, op, addresses[1..][..n - 1])
  {
    assert addresses[..n] == [addresses[0]] + addresses[1..][..n - 1];
    CommandsCons(lib, render, config, op, addresses[0], addresses[1..][..n - 1]);
  }

  lemma CommandsCons(lib: IpLibrary, render: Renderer, config: AliasConfig, op: Operation, first: Address, rest: seq<Address>)
    ensures CommandsFor(lib, render, config, op, [first] + rest) ==
      [CommandFor(lib, render, config, op, first)] + CommandsFor(lib, render, config, op, rest)
  {
  }

  /** The address list is memoised by the first address managed and kept
      from then on. */
  lemma {:induction false} ManageAllMemo(lib: IpLibrary, render: Renderer, s: AliasState, computed: seq<Address>, op: Operation, addresses: seq<Address>, dryRun: bool)
    ensures ManageAllSpec(lib, render, s, computed, op, addresses, dryRun).1.memo ==
      if addresses == [] || s.memo.Some? then s.memo else Some(computed)
    decreases |addresses|
  {
    if addresses != [] {
      var step := ManageAddressSpec(lib, render, s, computed, op, addresses[0], dryRun);
      if step.0 {
        ManageAllMemo(lib, render, step.1, computed, op, addresses[1..], dryRun);
      }
    }
  }

  /** `manage_aliases` copies the options, fails when there is no address,
      and otherwise succeeds exactly when every address has a command,
      running the commands of the addresses before the first without one
      unless this is a dry run. */
  lemma ManageAliasesOutcome(lib: IpLibrary, render: Renderer, s: AliasState, op: Operation, options: seq<AliasOption>)
    ensures var config := ApplyOptionsSpec(s.config, options);
      var addresses := ComputeSpec(lib, config, AllKinds).value;
      var r := ManageAliasesSpec(lib, render, s, op, options);
      r.1.config == config &&
      (r.0 <==> addresses != [] && forall i :: 0 <= i < |addresses| ==> Renders(lib, render, config, op, addresses[i])) &&
      r.1.executed == s.executed +
        (if DryRun(options) then []
         else CommandsFor(lib, render, config, op, addresses[..RenderedPrefix(lib, render, config, op, addresses)])) &&
      r.1.memo == if addresses == [] || s.memo.Some? then s.memo else Some(addresses)
  {
    var config := ApplyOptionsSpec(s.config, options);
    var addresses := ComputeSpec(lib, config, AllKinds).value;
    ManageAllResult(lib, render, s.(config := config), addresses, op, addresses, DryRun(options));
    ManageAllExecuted(lib, render, s.(config := config), addresses, op, addresses, DryRun(options));
    ManageAllMemo(lib, render, s.(config := config), addresses, op, addresses, DryRun(options));
    if addresses == [] {
      assert CommandsFor(lib, render, config, op, addresses[..0]) == [];
    }
  }

  // ---------------------------------------------------------------------
  // The manager

  /** The part of the application that manages aliases: its configuration,
      the memoised address list and the log of executed commands. */
  class AliasManager {
    var config: AliasConfig
    var memo: Option<seq<Address>>
    var executed: seq<string>
    const lib: IpLibrary
    const render: Renderer

    function View(): AliasState
      reads this
    {
      AliasState(config, memo, executed)
    }

    constructor(config: AliasConfig, lib: IpLibrary, render: Renderer)
      ensures View() == AliasState(config, None, [])
      ensures this.lib == lib && this.render == render
    {
      this.config := config;
      this.memo := None;
      this.executed := [];
      this.lib := lib;
      this.render := render;
    }

    /** The setter loop of `manage_aliases` (lib/devdnsd/aliases.rb:21). */
    method ApplyOptions(options: seq<AliasOption>)
      modifies this
      ensures View() == old(View()).(config := ApplyOptionsSpec(old(config), options))
    {
      ghost var initial := config;
      var i := 0;
      while i < |options|
        invariant 0 <= i <= |options|
        invariant config == ApplyOptionsSpec(initial, options[..i])
        invariant memo == old(memo) && executed == old(executed)
      {
        Assign(options[i]);
        assert options[..i + 1][..i] == options[..i];
        i := i + 1;
      }
      assert options[..|options|] == options;
    }

    /** `config.send("#{k}=", v) if config.respond_to?("#{k}=")`. */
    method Assign(o: AliasOption)
      modifies this
      ensures View() == old(View()).(config := SetOption(old(config), o))
    {
      match o {
        case AddressesOption(v) => config := config.(addresses := v);
        case StartAddressOption(v) => config := config.(startAddress := v);
        case AliasesOption(v) => config := config.(aliases := v);
        case InterfaceOption(v) => config := config.(interface := v);
        case AddCommandOption(v) => config := config.(addCommand := v);
        case RemoveCommandOption(v) => config := config.(removeCommand := v);
        case DryRunOption(_) =>
        case OtherOption(_) =>
      }
    }

    /** `generate_addresses` (lib/devdnsd/aliases.rb:115-125). */
    method GenerateAddresses(kind: AddressKind) returns (r: Result<seq<IpAddress>>)
      ensures r == GenerateSpec(lib, config, kind)
    {
      var parsed := lib.parse(EnsureString(config.startAddress));
      if parsed.None? {
        return Ok([]);
      }
      var start := parsed.value;
      if kind.OtherKind? {
        return Err(NoMethod);
      }
      if !FamilyAccepted(kind, start) {
        return Ok([]);
      }
      var count := AliasCount(config.aliases);
      if count.None? {
        return Ok([]);
      }
      var ip := start;
      var list := [];
      var i := 0;
      while i < count.value
        invariant 0 <= i <= count.value
        invariant ip == IpAddress(start.family, start.value + i)
        invariant list == Consecutive(start, i)
        invariant i == 0 || start.value + i <= MaxAddress(start.family)
      {
        var current := ip;
        var next := Succ(ip);
        if next.None? {
          return Ok([]);
        }
        ip := next.value;
        list := list + [current];
        i := i + 1;
      }
      r := Ok(list);
    }

    /** `compute_addresses` (lib/devdnsd/aliases.rb:59-62). */
    method ComputeAddresses(kind: AddressKind) returns (r: Result<seq<Address>>)
      ensures r == ComputeSpec(lib, config, kind)
    {
      if Present(config.addresses) {
        r := Ok(ListedAll(FilterAddresses(config.addresses.value, kind)));
      } else {
        var generated := GenerateAddresses(kind);
        match generated {
          case Err(e) => r := Err(e);
          case Ok(ips) => r := Ok(GeneratedAll(ips));
        }
      }
    }

    /** `setup_management` (lib/devdnsd/aliases.rb:96-106). */
    method SetupManagement(op: Operation, address: Address) returns (ok: bool, command: string)
      modifies this
      ensures (ok, command, View()) ==
        SetupSpec(lib, render, old(View()), ComputeSpec(lib, old(config), AllKinds).value, op, address)
    {
      if memo.None? {
        var computed := ComputeAddresses(AllKinds);
        memo := Some(computed.value);
      }
      var built := BuildCommand(render, config, op, AddressText(lib, address));
      if built.None? {
        return false, "";
      }
      return true, built.value;
    }

    /** `manage_address` (lib/devdnsd/aliases.rb:40-53). */
    method ManageAddress(op: Operation, address: Address, dryRun: bool) returns (ok: bool)
      modifies this
      ensures (ok, View()) ==
        ManageAddressSpec(lib, render, old(View()), ComputeSpec(lib, old(config), AllKinds).value, op, address, dryRun)
    {
      var command;
      ok, command := SetupManagement(op, address);
      if ok && !dryRun {
        executed := executed + [command];
      }
    }

    /** `manage_aliases` (lib/devdnsd/aliases.rb:19-32). */
    method ManageAliases(op: Operation, options: seq<AliasOption>) returns (ok: bool)
      modifies this
      ensures (ok, View()) == ManageAliasesSpec(lib, render, old(View()), op, options)
    {
      ApplyOptions(options);
      var computed := ComputeAddresses(AllKinds);
      var addresses := computed.value;
      if addresses == [] {
        return false;
      }
      ok := ManageAll(op, addresses, DryRun(options));
    }

    /** `addresses.all? { |address| manage_address(...) }`
        (lib/devdnsd/aliases.rb:27). */
    method ManageAll(op: Operation, addresses: seq<Address>, dryRun: bool) returns (ok: bool)
      modifies this
      ensures (ok, View()) ==
        ManageAllSpec(lib, render, old(View()), ComputeSpec(lib, old(config), AllKinds).value, op, addresses, dryRun)
    {
      ghost var computed := ComputeSpec(lib, config, AllKinds).value;
      ok := true;
      var i := 0;
      while i < |addresses| && ok
        invariant 0 <= i <= |addresses|
        invariant config == old(config)
        invariant ManageAllSpec(lib, render, old(View()), computed, op, addresses, dryRun) ==
          if ok then ManageAllSpec(lib, render, View(), computed, op, addresses[i..], dryRun) else (false, View())
      {
        assert addresses[i..][1..] == addresses[i + 1..];
        ok := ManageAddress(op, addresses[i], dryRun);
        i := i + 1;
      }
    }
  }
}
