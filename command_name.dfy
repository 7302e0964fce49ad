/**
 * Hierarchical command names. The Java class CommandName is not part of this
 * model; its behaviour is taken to be the one below: a name is a non-empty
 * sequence of tokens compared structurally, its parent drops the last token,
 * a plugin-prefixed name prepends the plugin id and an alias replaces the
 * last token (the last two are assumptions about code that is not shown).
 */
module CommandNames {
  type CommandName = s: seq<string> | |s| >= 1 witness [""]

  /** A name has a parent when it has more than one token. */
  predicate HasParent(n: CommandName)
  {
    |n| > 1
  }

  /** The parent is the name without its last token: the name extends it by exactly one token. */
  function Parent(n: CommandName): (p: CommandName)
    requires HasParent(n)
    ensures |p| == |n| - 1
    ensures n == p + [n[|n| - 1]]
  {
    n[..|n| - 1]
  }

  /** The plugin-prefixed variant: the plugin id as a new first token, the name after it. */
  function PluginPrefixed(n: CommandName, plugin: string): (p: CommandName)
    ensures |p| == |n| + 1
    ensures p[0] == plugin && p[1..] == n
  {
    [plugin] + n
  }

  /** The alias variant: same length and same leading tokens, the leaf replaced by `token`. */
  function Alias(n: CommandName, token: string): (a: CommandName)
    ensures |a| == |n|
    ensures a[..|n| - 1] == n[..|n| - 1] && a[|n| - 1] == token
  {
    n[..|n| - 1] + [token]
  }

  /** The text of a name as it appears in a usage message: its tokens separated by single spaces. */
  function NameText(n: seq<string>): string
  {
    if |n| <= 1 then (if n == [] then "" else n[0])
    else NameText(n[..|n| - 1]) + " " + n[|n| - 1]
  }
}
