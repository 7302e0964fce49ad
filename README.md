# ParaGlydar command manager, modelled in Dafny

This project models the command registry and dispatcher of the ParaGlydar
server API (`CommandManager`). Plugins register commands in one shared map
from command names to registered commands. Dispatch resolves a token
sequence to the longest registered name. It then runs that command's
executor and turns the result into an outcome for the caller and at most one
message for the sender.

- `wrappers.dfy`: `Option`, which stands for Java's nullable references.
- `command_name.dfy`: command names as non-empty token sequences, with their
  parent, plugin-prefixed and alias variants.
- `outcomes.dfy`: the outcome enumeration, the fixed message texts, and the
  part of `doExecute` that normalises a result and picks the message.
- `descriptors.dfy`: the shape check `validateMethod`, stated as a predicate
  and carried out by a loop that is proved equal to it.
- `registry.dfy`: registration as functions on the map. It covers the
  precedence policy, alias registration, the public `register`, the
  command-set overloads on an explicit list of descriptors, and idempotence.
- `dispatch.dfy`: implicit dispatch (longest registered prefix) and explicit
  dispatch (exact name) as functions, with lemmas that relate them.
- `command_manager.dfy`: the class `CommandManager` with its `commands` map
  field. Its registration methods update that field. Its dispatch methods
  send to a `Sender` that records the messages delivered to it. Each method
  is proved to compute the function above that specifies it.

Registration and dispatch inside the class are imperative, as in the source:
the alias loop, the parent walk (`while true`, ending because the name gets
shorter on each pass) and the command-set loops. The handler is a parameter of
type `(ExecutorId, seq<string>) -> Invocation`. An `Invocation` is either a
returned value (`None` stands for `null`) or a thrown exception. The usage
hint is a parameter of type `ExecutorId -> string`.

## Model

| member | source | states |
|---|---|---|
| CommandNames.Parent | src/main/java/org/glydar/paraglydar/command/manager/CommandManager.java:179-181 | the parent is one token shorter, and the name is the parent extended by its last token |
| CommandNames.PluginPrefixed | src/main/java/org/glydar/paraglydar/command/manager/CommandManager.java:134 | the prefixed name is the plugin id followed by the name, one token longer |
| CommandNames.Alias | src/main/java/org/glydar/paraglydar/command/manager/CommandManager.java:137 | an alias name has the same length and leading tokens as the name, with the leaf replaced |
| Outcomes.Normalize | src/main/java/org/glydar/paraglydar/command/manager/CommandManager.java:209-234 | a dispatched command never reports NOT_HANDLED; an exception gives ERROR; null and NOT_HANDLED give FAILURE_OTHER; every other value passes through |
| Outcomes.MessageFor | src/main/java/org/glydar/paraglydar/command/manager/CommandManager.java:217-239 | SUCCESS has no message and every other outcome has exactly one from the fixed table; WRONG_USAGE's message is "/", the matched name, a space and the usage hint |
| Outcomes.Respond | src/main/java/org/glydar/paraglydar/command/manager/CommandManager.java:206-242 | doExecute's result: the outcome is Normalize of the handler's result (returned outcomes pass through, never NOT_HANDLED) and the messages are exactly the table's message for it, none on SUCCESS and one otherwise; an exception gives ERROR with the error text; null gives FAILURE_OTHER with the error text; the usage message uses the matched name |
| Descriptors.ValidateMethod | src/main/java/org/glydar/paraglydar/command/manager/CommandManager.java:72-122 | returns true iff the method is annotated, not static, public, returns CommandOutcome, has a sender as its first parameter, String for the middle parameters, and String or String[] as the last one |
| Registry.RegisterOne | src/main/java/org/glydar/paraglydar/command/manager/CommandManager.java:142-163 | the private register changes at most the key name and removes no key; a plugin-prefixed registration always installs the new entry; an existing entry is kept when the new one is an alias or the old one is not; a non-alias replaces an alias |
| Registry.RegisterAliases | src/main/java/org/glydar/paraglydar/command/manager/CommandManager.java:136-139 | registering aliases adds exactly the alias names, keeps every existing entry unchanged (aliases never evict), and makes each added name an alias entry of this executor |
| Registry.RegisterWithAliases | src/main/java/org/glydar/paraglydar/command/manager/CommandManager.java:133-140 | the public register adds exactly the prefixed, bare and alias names; the prefixed name maps to a non-alias entry of the executor; the bare name does so when it was absent or an alias before, and otherwise keeps its entry; every entry under another name, alias or not, is kept; each newly added alias name is an alias entry of this executor |
| Registry.FreshRegistrationReachesAll | src/main/java/org/glydar/paraglydar/command/manager/CommandManager.java:133-140 | when none of the derived names is taken, the prefixed, bare and alias names all resolve to the same plugin and executor |
| Registry.RegisterIdempotent | src/main/java/org/glydar/paraglydar/command/manager/CommandManager.java:133-163 | registering the same command twice leaves the same registry as registering it once |
| Registry.RegisteredOnce | src/main/java/org/glydar/paraglydar/command/manager/CommandManager.java:133-163 | after a registration the prefixed name holds this executor's non-alias entry, the bare name holds a non-alias entry, and every alias name is taken |
| Registry.AliasesPresent | src/main/java/org/glydar/paraglydar/command/manager/CommandManager.java:151-154 | when every alias name is already taken, registering the aliases changes nothing |
| Registry.RegisterDescriptorsNames | src/main/java/org/glydar/paraglydar/command/manager/CommandManager.java:64-70 | registering a command set adds exactly the prefixed, bare and alias names of its valid descriptors and removes none |
| Registry.RegisterDescriptorsTwiceSameNames | src/main/java/org/glydar/paraglydar/command/manager/CommandManager.java:64-70 | registering the same command set twice yields the same set of names as registering it once |
| Registry.InvalidDescriptorsSkipped | src/main/java/org/glydar/paraglydar/command/manager/CommandManager.java:64-70 | a descriptor that is not admitted is skipped as a whole, so the result equals registering only the admitted descriptors; with the shape check as the test, a method that fails it registers none of its names |
| Registry.FirstSelected | src/main/java/org/glydar/paraglydar/command/manager/CommandManager.java:46-56 | the selective overload picks the first valid descriptor whose name equals the given tokens, and picks none only when no descriptor qualifies |
| Dispatch.LongestRegistered | src/main/java/org/glydar/paraglydar/command/manager/CommandManager.java:170-185 | the parent walk finds the longest registered prefix of the tokens, or reports that no prefix of length 1 or more is registered |
| Dispatch.DispatchTokens | src/main/java/org/glydar/paraglydar/command/manager/CommandManager.java:169-189 | implicit dispatch returns NOT_HANDLED iff no prefix is registered, and then sends exactly the invalid-command message; it never sends more than one message |
| Dispatch.DispatchTokensRunsLongest | src/main/java/org/glydar/paraglydar/command/manager/CommandManager.java:172-176 | when the longest registered prefix has n tokens, dispatch runs that entry with the remaining tokens as arguments, |args| - n of them |
| Dispatch.DispatchMissInvokesNothing | src/main/java/org/glydar/paraglydar/command/manager/CommandManager.java:179-188 | on a miss, the response is the same whatever the handler and usage hints are, so no handler is invoked |
| Dispatch.DispatchExact | src/main/java/org/glydar/paraglydar/command/manager/CommandManager.java:191-204 | explicit dispatch needs non-empty arguments; it returns NOT_HANDLED with the invalid-command message iff the exact name is missing, and otherwise runs that entry, with no fallback to a parent |
| Dispatch.ExactAgreesWithImplicit | src/main/java/org/glydar/paraglydar/command/manager/CommandManager.java:169-204 | explicit dispatch of a name agrees with implicit dispatch of the name's tokens followed by the arguments, when that name is the longest registered prefix |
| Dispatch.FallbackToParent | src/main/java/org/glydar/paraglydar/command/manager/CommandManager.java:169-185 | with only "plugin group" registered, the tokens "plugin group sub extra" run it with the arguments "sub extra" |
| Manager.CommandManager.constructor | src/main/java/org/glydar/paraglydar/command/manager/CommandManager.java:34-37 | a new manager has an empty registry |
| Manager.CommandManager.RegisterSet | src/main/java/org/glydar/paraglydar/command/manager/CommandManager.java:64-70 | the registry afterwards is RegisterDescriptors of the registry before: each descriptor that passes ValidateMethod is registered with its name, executor and aliases, in order |
| Manager.CommandManager.RegisterSelected | src/main/java/org/glydar/paraglydar/command/manager/CommandManager.java:46-56 | registers only the first selected descriptor, or changes nothing when there is none |
| Manager.CommandManager.Register | src/main/java/org/glydar/paraglydar/command/manager/CommandManager.java:133-140 | the registry afterwards is RegisterWithAliases of the registry before |
| Manager.CommandManager.RegisterName | src/main/java/org/glydar/paraglydar/command/manager/CommandManager.java:142-163 | the registry afterwards is RegisterOne of the registry before |
| Manager.CommandManager.Execute | src/main/java/org/glydar/paraglydar/command/manager/CommandManager.java:169-189 | the outcome and the messages appended to the sender are those of DispatchTokens |
| Manager.CommandManager.ExecuteExact | src/main/java/org/glydar/paraglydar/command/manager/CommandManager.java:191-204 | the outcome and the messages appended to the sender are those of DispatchExact |
| Manager.CommandManager.DoExecute | src/main/java/org/glydar/paraglydar/command/manager/CommandManager.java:206-242 | the outcome and the messages appended to the sender are those of Run: the handler is invoked once on the matched entry's executor and the arguments (line 210), and Respond translates what it produced for the matched name and its usage hint |

## Left out

- The command-line overload `execute(sender, commandLine)` (lines 165-167) is not modelled. Splitting on `" +"` follows Java regex rules, for example the empty leading token, so dispatch takes tokens that are already split.
- Reflection is replaced by an explicit list of descriptors. `getDeclaredMethods`, `getAnnotation` and `MethodCommandExecutor` are not modelled. The list's order stands for the unspecified order of `getDeclaredMethods`, and each descriptor carries its executor's id.
- Logging through `GlydarLogger` is not modelled, including the warnings on conflicts and invalid shapes. It does not affect the registry or the outcome.
- Concurrent access to the unsynchronised map is not modelled. Every operation runs alone.
- `CommandName` is not part of this model. The parent, plugin prefix and alias are the assumptions stated in `command_name.dfy`. The text of a name in the usage message is assumed to be its tokens joined by single spaces. Any normalisation that `CommandName.of` might do, such as lower-casing, is not modelled.
- Manager.CommandManager.Execute: requires at least one token, because a command name has at least one token. What `CommandName.of` does with an empty array is not part of this model.
- Manager.CommandManager.ExecuteExact: requires every argument to be non-empty. The source rejects an empty or null argument by throwing from `Preconditions`, as a caller error. Strings in the model cannot be null.
- The handler's own messages to the sender, and what its result depends on, belong to `RegisteredCommand.execute`, which is not part of this model. The handler is a parameter, so any behaviour that depends on the sender can be stood for by the function passed in. The sender log records only the messages that the manager sends.
- Only an `Exception` thrown by the handler is caught. A `java.lang.Error`, or an exception thrown by `getUsage` or `sendMessage`, would propagate, and the model does not represent it.
- Registered commands are values. Two `RegisteredCommand` objects with the same plugin, executor and alias flag count as equal, so Java object identity is not modelled. RegisterIdempotent relies on this.
- Unregistering commands is not modelled, because this class has no such operation.
