/**
 * The registry as a value: a map from command names to registered commands,
 * and the functions that say what each registration does to it.
 */
module Registry {
  import opened Wrappers
  import opened CommandNames
  import opened Descriptors

  /** The id of the plugin that registers a command; it is also the prefix token. */
  type PluginId = string

  /** The stored record: owning plugin, executor, and whether the entry is an alias. */
  datatype RegisteredCommand = RegisteredCommand(plugin: PluginId, executor: ExecutorId, isAlias: bool)

  type Commands = map<CommandName, RegisteredCommand>

  /**
   * One registration under one name, with the conflict policy: a
   * plugin-prefixed registration always overrides; otherwise an existing
   * entry is kept unless it is an alias and the new one is not. Every other
   * name keeps its entry, and no name is ever removed.
   */
  function RegisterOne(m: Commands, plugin: PluginId, name: CommandName, executor: ExecutorId,
                       isPluginPrefixed: bool, isAlias: bool): (r: Commands)
    ensures r.Keys == m.Keys + {name}
    ensures forall k :: k in m && k != name ==> r[k] == m[k]
    ensures isPluginPrefixed ==> r[name] == RegisteredCommand(plugin, executor, isAlias)
    ensures !isPluginPrefixed && name in m && (isAlias || !m[name].isAlias) ==> r == m
    ensures !isPluginPrefixed && (name !in m || (!isAlias && m[name].isAlias)) ==>
              r[name] == RegisteredCommand(plugin, executor, isAlias)
  {
    if name in m && !isPluginPrefixed && (isAlias || !m[name].isAlias) then m
    else m[name := RegisteredCommand(plugin, executor, isAlias)]
  }

  /** The names the aliases of `name` stand for. */
  function AliasNames(name: CommandName, aliases: seq<string>): set<CommandName>
  {
    set t | t in aliases :: Alias(name, t)
  }

  /**
   * Registering the aliases of `name` one after the other, as alias entries.
   * Aliases never evict: every existing entry is kept, every alias name
   * becomes present, and each name that was absent is an alias entry of this
   * executor.
   */
  function RegisterAliases(m: Commands, plugin: PluginId, name: CommandName, executor: ExecutorId,
                           aliases: seq<string>): (r: Commands)
    ensures r.Keys == m.Keys + AliasNames(name, aliases)
    ensures forall k :: k in m ==> r[k] == m[k]
    ensures forall k :: k in r && k !in m ==> r[k] == RegisteredCommand(plugin, executor, true)
    decreases |aliases|
  {
    if aliases == [] then m
    else
      var init := aliases[..|aliases| - 1];
      var last := aliases[|aliases| - 1];
      assert aliases == init + [last];
      assert AliasNames(name, aliases) == AliasNames(name, init) + {Alias(name, last)};
      RegisterOne(RegisterAliases(m, plugin, name, executor, init), plugin, Alias(name, last), executor, false, true)
  }

  /**
   * The public registration: the plugin-prefixed name, then the bare name,
   * then each alias. Afterwards exactly the prefixed name, the bare name and
   * the alias names have been added; the prefixed name always reaches this
   * executor; the bare name reaches it unless a non-alias held it; and no
   * non-alias entry under another name is disturbed.
   */
  function RegisterWithAliases(m: Commands, plugin: PluginId, name: CommandName, executor: ExecutorId,
                               aliases: seq<string>): (r: Commands)
    ensures r.Keys == m.Keys + {PluginPrefixed(name, plugin), name} + AliasNames(name, aliases)
    ensures r[PluginPrefixed(name, plugin)] == RegisteredCommand(plugin, executor, false)
    ensures name !in m || m[name].isAlias ==> r[name] == RegisteredCommand(plugin, executor, false)
    ensures name in m && !m[name].isAlias ==> r[name] == m[name]
    ensures forall k :: k in m && !m[k].isAlias && k != PluginPrefixed(name, plugin) ==> r[k] == m[k]
    ensures forall k :: k in m && k != PluginPrefixed(name, plugin) && k != name ==> r[k] == m[k]
    ensures forall k :: k in AliasNames(name, aliases) && k !in m && k != name ==>
              r[k] == RegisteredCommand(plugin, executor, true)
  {
    var prefixed := PluginPrefixed(name, plugin);
    assert prefixed != name by { assert |prefixed| != |name|; }
    var afterPrefixed := RegisterOne(m, plugin, prefixed, executor, true, false);
    var afterBare := RegisterOne(afterPrefixed, plugin, name, executor, false, false);
    RegisterAliases(afterBare, plugin, name, executor, aliases)
  }

  /**
   * Registering the same command twice gives the same registry as
   * registering it once: the prefixed name is overwritten with an equal
   * entry and the bare name and aliases are all rejected as duplicates.
   */
  lemma RegisterIdempotent(m: Commands, plugin: PluginId, name: CommandName, executor: ExecutorId,
                           aliases: seq<string>)
    ensures var once := RegisterWithAliases(m, plugin, name, executor, aliases);
            RegisterWithAliases(once, plugin, name, executor, aliases) == once
  {
    var once := RegisterWithAliases(m, plugin, name, executor, aliases);
    RegisteredOnce(m, plugin, name, executor, aliases);
    var prefixed := PluginPrefixed(name, plugin);
    var afterPrefixed := RegisterOne(once, plugin, prefixed, executor, true, false);
    assert afterPrefixed == once;
    var afterBare := RegisterOne(afterPrefixed, plugin, name, executor, false, false);
    assert afterBare == once;
    AliasesPresent(once, plugin, name, executor, aliases);
  }

  /** What a second registration of the same command finds after the first one. */
  lemma RegisteredOnce(m: Commands, plugin: PluginId, name: CommandName, executor: ExecutorId,
                       aliases: seq<string>)
    ensures var once := RegisterWithAliases(m, plugin, name, executor, aliases);
            && once[PluginPrefixed(name, plugin)] == RegisteredCommand(plugin, executor, false)
            && name in once && !once[name].isAlias
            && AliasNames(name, aliases) <= once.Keys
  {
  }

  /**
   * Into names nobody holds yet, a registration makes the prefixed name, the
   * bare name and every alias name all reach the same plugin and executor.
   */
  lemma FreshRegistrationReachesAll(m: Commands, plugin: PluginId, name: CommandName, executor: ExecutorId,
                                    aliases: seq<string>)
    requires PluginPrefixed(name, plugin) !in m && name !in m
    requires forall t :: t in aliases ==> Alias(name, t) !in m
    ensures var r := RegisterWithAliases(m, plugin, name, executor, aliases);
            forall k :: k in {PluginPrefixed(name, plugin), name} + AliasNames(name, aliases) ==>
              k in r && r[k].plugin == plugin && r[k].executor == executor
  {
    var r := RegisterWithAliases(m, plugin, name, executor, aliases);
    var prefixed := PluginPrefixed(name, plugin);
    assert prefixed != name by { assert |prefixed| != |name|; }
    var afterPrefixed := RegisterOne(m, plugin, prefixed, executor, true, false);
    var afterBare := RegisterOne(afterPrefixed, plugin, name, executor, false, false);
    assert afterBare.Keys == m.Keys + {prefixed, name};
    forall k | k in AliasNames(name, aliases)
      ensures r[k].plugin == plugin && r[k].executor == executor
    {
      var t :| t in aliases && k == Alias(name, t);
      if k !in afterBare {
        assert r[k] == RegisteredCommand(plugin, executor, true);
      } else {
        assert k == name || k == prefixed;
      }
    }
  }

  /** When every alias name is already taken, registering the aliases changes nothing. */
  lemma AliasesPresent(m: Commands, plugin: PluginId, name: CommandName, executor: ExecutorId,
                       aliases: seq<string>)
    requires AliasNames(name, aliases) <= m.Keys
    ensures RegisterAliases(m, plugin, name, executor, aliases) == m
  {
    var r := RegisterAliases(m, plugin, name, executor, aliases);
    assert r.Keys == m.Keys;
  }

  /** Applies `step` to each descriptor that `accept` admits, in order. */
  function RegisterEach(m: Commands, ds: seq<Descriptor>, accept: Descriptor -> bool,
                        step: (Commands, Descriptor) -> Commands): Commands
    decreases |ds|
  {
    if ds == [] then m
    else
      var before := RegisterEach(m, ds[..|ds| - 1], accept, step);
      if accept(ds[|ds| - 1]) then step(before, ds[|ds| - 1]) else before
  }

  /** The shape check, as a test on descriptors. */
  function HasValidShape(): Descriptor -> bool
  {
    (d: Descriptor) => ValidShape(d.shape)
  }

  /** The registration of one descriptor by `plugin`: its name, executor and aliases. */
  function RegisterDescriptor(plugin: PluginId): (Commands, Descriptor) -> Commands
  {
    (c: Commands, d: Descriptor) => RegisterWithAliases(c, plugin, d.name, d.executor, d.aliases)
  }

  /** Registering every valid descriptor of a command set, in the order given. */
  function RegisterDescriptors(m: Commands, plugin: PluginId, ds: seq<Descriptor>): Commands
  {
    RegisterEach(m, ds, HasValidShape(), RegisterDescriptor(plugin))
  }

  /** The names one descriptor is registered under. */
  function DerivedNames(plugin: PluginId, d: Descriptor): set<CommandName>
  {
    {PluginPrefixed(d.name, plugin), d.name} + AliasNames(d.name, d.aliases)
  }

  /** The names of all valid descriptors of a list. */
  function AllDerivedNames(plugin: PluginId, ds: seq<Descriptor>): set<CommandName>
    decreases |ds|
  {
    if ds == [] then {}
    else
      var d := ds[|ds| - 1];
      AllDerivedNames(plugin, ds[..|ds| - 1]) + if ValidShape(d.shape) then DerivedNames(plugin, d) else {}
  }

  /**
   * Registering a command set adds exactly the names of its valid
   * descriptors: each of those becomes reachable, no name of a descriptor
   * that fails the shape check is added unless a valid one shares it, and
   * no name is removed.
   */
  lemma {:induction false} RegisterDescriptorsNames(m: Commands, plugin: PluginId, ds: seq<Descriptor>)
    ensures RegisterDescriptors(m, plugin, ds).Keys == m.Keys + AllDerivedNames(plugin, ds)
    decreases |ds|
  {
    if ds != [] {
      var init := ds[..|ds| - 1];
      var d := ds[|ds| - 1];
      RegisterDescriptorsNames(m, plugin, init);
      var before := RegisterDescriptors(m, plugin, init);
      if ValidShape(d.shape) {
        assert RegisterDescriptors(m, plugin, ds) == RegisterWithAliases(before, plugin, d.name, d.executor, d.aliases);
      } else {
        assert RegisterDescriptors(m, plugin, ds) == before;
      }
    }
  }

  /**
   * Registering a command set a second time adds no name: the registry has
   * the same names as after registering it once.
   */
  lemma RegisterDescriptorsTwiceSameNames(m: Commands, plugin: PluginId, ds: seq<Descriptor>)
    ensures var once := RegisterDescriptors(m, plugin, ds);
            RegisterDescriptors(once, plugin, ds).Keys == once.Keys
  {
    var once := RegisterDescriptors(m, plugin, ds);
    RegisterDescriptorsNames(m, plugin, ds);
    RegisterDescriptorsNames(once, plugin, ds);
  }

  /** The descriptors that `accept` admits, in their order. */
  function Admitted(ds: seq<Descriptor>, accept: Descriptor -> bool): (r: seq<Descriptor>)
    ensures |r| <= |ds|
    ensures forall i :: 0 <= i < |r| ==> accept(r[i])
    decreases |ds|
  {
    if ds == [] then []
    else
      var d := ds[|ds| - 1];
      if accept(d) then Admitted(ds[..|ds| - 1], accept) + [d] else Admitted(ds[..|ds| - 1], accept)
  }

  /**
   * A descriptor that is not admitted is skipped as a whole: registering a
   * list gives the same registry as registering only its admitted members,
   * whatever the registration of one descriptor does. With the shape check
   * as the test, invalid methods contribute nothing.
   */
  lemma {:induction false} InvalidDescriptorsSkipped(m: Commands, ds: seq<Descriptor>, accept: Descriptor -> bool,
                                                     step: (Commands, Descriptor) -> Commands)
    ensures RegisterEach(m, ds, accept, step) == RegisterEach(m, Admitted(ds, accept), accept, step)
    decreases |ds|
  {
    if ds != [] {
      var init := ds[..|ds| - 1];
      var d := ds[|ds| - 1];
      InvalidDescriptorsSkipped(m, init, accept, step);
      if accept(d) {
        var vs := Admitted(ds, accept);
        assert vs[..|vs| - 1] == Admitted(init, accept);
      }
    }
  }

  /** Whether a descriptor is the one the selective registration looks for. */
  predicate Selected(d: Descriptor, names: seq<string>)
  {
    ValidShape(d.shape) && d.name == names
  }

  /** The index of the first valid descriptor whose name is exactly `names`, if any. */
  function FirstSelected(ds: seq<Descriptor>, names: seq<string>): (r: Option<nat>)
    ensures r.Some? ==> r.value < |ds| && Selected(ds[r.value], names)
    ensures r.Some? ==> forall j :: 0 <= j < r.value ==> !Selected(ds[j], names)
    ensures r.None? <==> forall j :: 0 <= j < |ds| ==> !Selected(ds[j], names)
    decreases |ds|
  {
    if ds == [] then None
    else if Selected(ds[0], names) then Some(0)
    else match FirstSelected(ds[1..], names)
      case None => None
      case Some(i) => Some(i + 1)
  }
}
