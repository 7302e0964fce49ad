/**
 * The command manager: one mutable registry of commands, the registration
 * entry points that update it and the dispatch entry points that read it
 * and report to a sender.
 */
module Manager {
  import opened Wrappers
  import opened CommandNames
  import opened Outcomes
  import opened Descriptors
  import opened Registry
  import opened Dispatch

  /** A command sender, seen only through the messages delivered to it. */
  class Sender {
    var messages: seq<string>

    constructor ()
      ensures messages == []
    {
      messages := [];
    }

    method SendMessage(text: string)
      modifies this
      ensures messages == old(messages) + [text]
    {
      messages := messages + [text];
    }
  }

  class CommandManager {
    var commands: Commands

    constructor ()
      ensures commands == map[]
    {
      commands := map[];
    }

    /** Registers every descriptor of a command set that passes the shape check, in order. */
    method RegisterSet(plugin: PluginId, descriptors: seq<Descriptor>)
      modifies this
      ensures commands == RegisterDescriptors(old(commands), plugin, descriptors)
    {
      var i := 0;
      while i < |descriptors|
        invariant 0 <= i <= |descriptors|
        invariant commands == RegisterDescriptors(old(commands), plugin, descriptors[..i])
      {
        var d := descriptors[i];
        assert descriptors[..i + 1][..i] == descriptors[..i];
        var valid := ValidateMethod(d.shape);
        if valid {
          Register(plugin, d.name, d.executor, d.aliases);
        }
        i := i + 1;
      }
      assert descriptors[..i] == descriptors;
    }

    /** Registers the first valid descriptor whose name is exactly `names`, and nothing else. */
    method RegisterSelected(plugin: PluginId, descriptors: seq<Descriptor>, names: seq<string>)
      modifies this
      ensures commands == match FirstSelected(descriptors, names)
                          case Some(i) => RegisterWithAliases(old(commands), plugin, descriptors[i].name,
                                                              descriptors[i].executor, descriptors[i].aliases)
                          case None => old(commands)
    {
      var i := 0;
      while i < |descriptors|
        invariant 0 <= i <= |descriptors|
        invariant forall j :: 0 <= j < i ==> !Selected(descriptors[j], names)
        invariant commands == old(commands)
      {
        var d := descriptors[i];
        var valid := ValidateMethod(d.shape);
        if valid && d.name == names {
          Register(plugin, d.name, d.executor, d.aliases);
          assert FirstSelected(descriptors, names) == Some(i);
          return;
        }
        i := i + 1;
      }
    }

    /** Registers `name` under its plugin-prefixed form, itself, and each alias. */
    method Register(plugin: PluginId, name: CommandName, executor: ExecutorId, aliases: seq<string>)
      modifies this
      ensures commands == RegisterWithAliases(old(commands), plugin, name, executor, aliases)
    {
      RegisterName(plugin, PluginPrefixed(name, plugin), executor, true, false);
      RegisterName(plugin, name, executor, false, false);
      ghost var afterBare := commands;
      var i := 0;
      while i < |aliases|
        invariant 0 <= i <= |aliases|
        invariant commands == RegisterAliases(afterBare, plugin, name, executor, aliases[..i])
      {
        var alias := Alias(name, aliases[i]);
        assert aliases[..i + 1][..i] == aliases[..i];
        RegisterName(plugin, alias, executor, false, true);
        i := i + 1;
      }
      assert aliases[..i] == aliases;
    }

    /** One registration under one name, resolving a conflict by the precedence policy. */
    method RegisterName(plugin: PluginId, name: CommandName, executor: ExecutorId,
                        isPluginPrefixed: bool, isAlias: bool)
      modifies this
      ensures commands == RegisterOne(old(commands), plugin, name, executor, isPluginPrefixed, isAlias)
    {
      if name in commands {
        var existing := commands[name];
        if !isPluginPrefixed && (isAlias || !existing.isAlias) {
          return;
        }
      }
      commands := commands[name := RegisteredCommand(plugin, executor, isAlias)];
    }

    /**
     * Implicit dispatch: walk from the whole token sequence to ever shorter
     * parents until a registered name is found, and run it on the rest.
     */
    method Execute(sender: Sender, args: seq<string>, handler: Handler, usage: Usage) returns (outcome: Outcome)
      requires |args| >= 1
      modifies sender
      ensures var r := DispatchTokens(commands, args, handler, usage);
              outcome == r.outcome && sender.messages == old(sender.messages) + r.sent
    {
      var name: CommandName := args;
      while true
        invariant 1 <= |name| <= |args| && name == args[..|name|]
        invariant forall k :: |name| < k <= |args| ==> !Registered(commands, args, k)
        invariant sender.messages == old(sender.messages)
        decreases |name|
      {
        if name in commands {
          var cmd := commands[name];
          var realArgs := args[|name|..];
          DispatchTokensRunsLongest(commands, args, |name|, handler, usage);
          outcome := DoExecute(sender, name, cmd, realArgs, handler, usage);
          return;
        }
        if HasParent(name) {
          name := Parent(name);
        } else {
          break;
        }
      }
      sender.SendMessage(InvalidCommand);
      outcome := NotHandled;
    }

    /** Explicit dispatch to exactly `name`, with no parent fallback. */
    method ExecuteExact(sender: Sender, name: CommandName, args: seq<string>, handler: Handler, usage: Usage)
      returns (outcome: Outcome)
      requires forall i :: 0 <= i < |args| ==> args[i] != ""
      modifies sender
      ensures var r := DispatchExact(commands, name, args, handler, usage);
              outcome == r.outcome && sender.messages == old(sender.messages) + r.sent
    {
      if name !in commands {
        sender.SendMessage(InvalidCommand);
        return NotHandled;
      }
      var cmd := commands[name];
      outcome := DoExecute(sender, name, cmd, args, handler, usage);
    }

    /** Runs a matched command and reports its outcome to the sender. */
    method DoExecute(sender: Sender, name: CommandName, cmd: RegisteredCommand, args: seq<string>,
                     handler: Handler, usage: Usage) returns (outcome: Outcome)
      modifies sender
      ensures var r := Run(name, cmd, args, handler, usage);
              outcome == r.outcome && sender.messages == old(sender.messages) + r.sent
    {
      var invocation := handler(cmd.executor, args);
      match invocation {
        case Threw =>
          outcome := Error;
        case Returned(value) =>
          outcome := if value.Some? then value.value else FailureOther;
      }
      match outcome {
        case Success =>
        case NoPermission =>
          sender.SendMessage(PermissionError);
        case WrongUsage =>
          sender.SendMessage("/" + NameText(name) + " " + usage(cmd.executor));
        case UnsupportedSender =>
          sender.SendMessage(UnsupportedSenderError);
        case Error =>
          sender.SendMessage(ErrorOccurred);
        case NotHandled =>
          outcome := FailureOther;
          sender.SendMessage(ErrorOccurred);
        case FailureOther =>
          sender.SendMessage(ErrorOccurred);
      }
    }
  }
}
