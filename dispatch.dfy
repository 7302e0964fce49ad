/**
 * Dispatch as a value: which registered name a token sequence resolves to
 * and what the sender and the caller see, for both ways of executing.
 */
module Dispatch {
  import opened Wrappers
  import opened CommandNames
  import opened Outcomes
  import opened Descriptors
  import opened Registry

  /** A handler: what running an executor on the given arguments produces. */
  type Handler = (ExecutorId, seq<string>) -> Invocation

  /** The usage hint shown for an executor. */
  type Usage = ExecutorId -> string

  /** The first `len` tokens of `args` form a registered name. */
  predicate Registered(commands: Commands, args: seq<string>, len: nat)
  {
    1 <= len <= |args| && args[..len] in commands
  }

  /**
   * The parent walk from `args[..len]` downwards: the longest registered
   * name among the first `len` tokens, or None when none of lengths
   * 1..len is registered.
   */
  function LongestRegistered(commands: Commands, args: seq<string>, len: nat): (r: Option<nat>)
    requires 1 <= len <= |args|
    ensures r.Some? ==> 1 <= r.value <= len && Registered(commands, args, r.value)
    ensures r.Some? ==> forall k :: r.value < k <= len ==> !Registered(commands, args, k)
    ensures r.None? <==> forall k :: 1 <= k <= len ==> !Registered(commands, args, k)
    decreases len
  {
    if args[..len] in commands then assert Registered(commands, args, len); Some(len)
    else if len > 1 then LongestRegistered(commands, args, len - 1)
    else None
  }

  /** Running the matched entry: invoke its handler and translate what it produced. */
  function Run(name: CommandName, cmd: RegisteredCommand, args: seq<string>,
               handler: Handler, usage: Usage): Response
  {
    Respond(name, usage(cmd.executor), handler(cmd.executor, args))
  }

  /**
   * Implicit dispatch of a token sequence: resolve the longest registered
   * prefix, hand it the remaining tokens; with no registered prefix the
   * outcome is NotHandled together with exactly the invalid-command message.
   */
  function DispatchTokens(commands: Commands, args: seq<string>, handler: Handler, usage: Usage): (r: Response)
    requires |args| >= 1
    ensures r.outcome == NotHandled <==> forall k :: 1 <= k <= |args| ==> !Registered(commands, args, k)
    ensures r.outcome == NotHandled ==> r.sent == [InvalidCommand]
    ensures |r.sent| <= 1
  {
    match LongestRegistered(commands, args, |args|)
    case None => Response(NotHandled, [InvalidCommand])
    case Some(n) => Run(args[..n], commands[args[..n]], args[n..], handler, usage)
  }

  /**
   * When `args[..n]` is registered and no longer prefix is, implicit
   * dispatch runs exactly that entry with the `|args| - n` remaining tokens.
   */
  lemma DispatchTokensRunsLongest(commands: Commands, args: seq<string>, n: nat, handler: Handler, usage: Usage)
    requires Registered(commands, args, n)
    requires forall k :: n < k <= |args| ==> !Registered(commands, args, k)
    ensures |args[n..]| == |args| - n
    ensures DispatchTokens(commands, args, handler, usage) ==
            Run(args[..n], commands[args[..n]], args[n..], handler, usage)
  {
    assert LongestRegistered(commands, args, |args|) == Some(n);
  }

  /** A miss invokes nothing: the response does not depend on the handler or the usage hints. */
  lemma DispatchMissInvokesNothing(commands: Commands, args: seq<string>,
                                   h1: Handler, u1: Usage, h2: Handler, u2: Usage)
    requires |args| >= 1
    requires forall k :: 1 <= k <= |args| ==> !Registered(commands, args, k)
    ensures DispatchTokens(commands, args, h1, u1) == DispatchTokens(commands, args, h2, u2)
            == Response(NotHandled, [InvalidCommand])
  {
  }

  /**
   * Explicit dispatch of an exact name: arguments must be non-empty; no
   * parent fallback, so a miss on `name` itself is NotHandled with the
   * invalid-command message.
   */
  function DispatchExact(commands: Commands, name: CommandName, args: seq<string>,
                         handler: Handler, usage: Usage): (r: Response)
    requires forall i :: 0 <= i < |args| ==> args[i] != ""
    ensures r.outcome == NotHandled <==> name !in commands
    ensures name !in commands ==> r.sent == [InvalidCommand]
    ensures name in commands ==> r == Run(name, commands[name], args, handler, usage)
  {
    if name !in commands then Response(NotHandled, [InvalidCommand])
    else Run(name, commands[name], args, handler, usage)
  }

  /**
   * The two ways of executing agree when the explicit name is the longest
   * registered prefix of the whole token sequence.
   */
  lemma ExactAgreesWithImplicit(commands: Commands, name: CommandName, args: seq<string>,
                                handler: Handler, usage: Usage)
    requires forall i :: 0 <= i < |args| ==> args[i] != ""
    requires name in commands
    requires forall k :: |name| < k <= |name + args| ==> !Registered(commands, name + args, k)
    ensures DispatchTokens(commands, name + args, handler, usage) == DispatchExact(commands, name, args, handler, usage)
  {
    var all := name + args;
    assert all[..|name|] == name;
    assert all[|name|..] == args;
    DispatchTokensRunsLongest(commands, all, |name|, handler, usage);
  }

  /**
   * Fallback to a registered ancestor: with only "plugin group" registered,
   * the tokens "plugin group sub extra" reach it with arguments "sub extra".
   */
  lemma FallbackToParent(cmd: RegisteredCommand, handler: Handler, usage: Usage)
    ensures var commands := map[["plugin", "group"] := cmd];
            DispatchTokens(commands, ["plugin", "group", "sub", "extra"], handler, usage) ==
            Run(["plugin", "group"], cmd, ["sub", "extra"], handler, usage)
  {
    var commands := map[["plugin", "group"] := cmd];
    var args := ["plugin", "group", "sub", "extra"];
    assert args[..2] == ["plugin", "group"];
    assert args[2..] == ["sub", "extra"];
    assert !Registered(commands, args, 3) by { assert |args[..3]| == 3; }
    assert !Registered(commands, args, 4) by { assert |args[..4]| == 4; }
    DispatchTokensRunsLongest(commands, args, 2, handler, usage);
  }
}
