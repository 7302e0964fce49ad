/**
 * Command descriptors: what the reflective scan of a command set yields for
 * one method, reduced to the facts the shape check looks at (annotation,
 * modifiers, return type, parameter types) plus the annotation's name and
 * aliases and the executor built for it.
 */
module Descriptors {
  import opened CommandNames

  /** The Java types the shape check distinguishes. */
  datatype TypeRef =
    | CommandSenderType  // CommandSender or any subtype of it
    | StringType         // String
    | StringArrayType    // String[]
    | CommandOutcomeType // CommandOutcome
    | OtherType          // anything else

  datatype MethodShape = MethodShape(
    hasCommandAnnotation: bool,
    isStatic: bool,
    isPublic: bool,
    returnType: TypeRef,
    parameterTypes: seq<TypeRef>)

  /** Identifies the executor (handler) built for one annotated method. */
  type ExecutorId = nat

  datatype Descriptor = Descriptor(
    shape: MethodShape,
    name: CommandName,
    aliases: seq<string>,
    executor: ExecutorId)

  /**
   * The calling-shape contract for a command method: annotated, an instance
   * method, public, returning CommandOutcome, taking a sender first, then
   * strings, the last of which may instead be a String[] rest parameter.
   */
  predicate ValidShape(m: MethodShape)
  {
    var ps := m.parameterTypes;
    && m.hasCommandAnnotation
    && !m.isStatic
    && m.isPublic
    && m.returnType == CommandOutcomeType
    && |ps| >= 1
    && ps[0] == CommandSenderType
    && (forall i :: 1 <= i < |ps| - 1 ==> ps[i] == StringType)
    && (|ps| > 1 ==> ps[|ps| - 1] == StringType || ps[|ps| - 1] == StringArrayType)
  }

  /** validateMethod's own order: rule by rule, the middle parameters in a loop. */
  method ValidateMethod(m: MethodShape) returns (valid: bool)
    ensures valid <==> ValidShape(m)
  {
    if !m.hasCommandAnnotation {
      return false;
    }
    if m.isStatic {
      return false;
    }
    if !m.isPublic {
      return false;
    }
    if m.returnType != CommandOutcomeType {
      return false;
    }
    var parameterTypes := m.parameterTypes;
    if |parameterTypes| == 0 {
      return false;
    }
    if parameterTypes[0] != CommandSenderType {
      return false;
    }
    var i := 1;
    while i < |parameterTypes| - 1
      invariant 1 <= i <= if |parameterTypes| > 1 then |parameterTypes| - 1 else 1
      invariant forall j :: 1 <= j < i ==> parameterTypes[j] == StringType
    {
      if parameterTypes[i] != StringType {
        return false;
      }
      i := i + 1;
    }
    if |parameterTypes| > 1 {
      var last := parameterTypes[|parameterTypes| - 1];
      if last != StringType && last != StringArrayType {
        return false;
      }
    }
    return true;
  }
}
