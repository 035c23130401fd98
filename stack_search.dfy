/** The `search_stack` function of stack_data_structure.py: Java's `Stack.search` over a Python list whose end is the top. */
module StackSearch {
  import opened Sequences

  datatype Option<T> = None | Some(value: T)

  /**
   * Python's `list.index`: the position of the first element equal to `target`,
   * or None where Python raises ValueError.
   */
  function IndexOf<T(==)>(s: seq<T>, target: T): (r: Option<nat>)
    ensures r.None? <==> target !in s
    ensures r.Some? ==> r.value < |s| && s[r.value] == target
    ensures r.Some? ==> forall j :: 0 <= j < r.value ==> s[j] != target
  {
    if s == [] then None
    else if s[0] == target then Some(0)
    else
      match IndexOf(s[1..], target)
      case None => None
      case Some(k) => Some(k + 1)
  }

  /**
   * The 1-based distance from the top (the end of `stack`) of the topmost
   * occurrence of `target`, or -1 when `target` is absent. The stack itself is
   * a value and is left as it was.
   */
  function SearchStack<T(==)>(stack: seq<T>, target: T): (position: int)
    ensures position == -1 <==> target !in stack
    ensures position != -1 ==> 1 <= position <= |stack| && stack[|stack| - position] == target
    ensures position != -1 ==> forall k :: |stack| - position < k < |stack| ==> stack[k] != target
  {
    ReverseMembers(stack, target);
    match IndexOf(Reverse(stack), target)
    case Some(i) =>
      ReverseAt(stack, i);
      assert forall k :: |stack| - (i + 1) < k < |stack| ==> stack[k] != target by {
        forall k | |stack| - (i + 1) < k < |stack|
          ensures stack[k] != target
        {
          ReverseAt(stack, |stack| - 1 - k);
        }
      }
      i + 1
    case None => -1
  }

  /** Any position meeting the three conditions above is the one found. */
  lemma SearchStackUnique<T>(stack: seq<T>, target: T, p: int)
    requires 1 <= p <= |stack| && stack[|stack| - p] == target
    requires forall k :: |stack| - p < k < |stack| ==> stack[k] != target
    ensures SearchStack(stack, target) == p
  {
  }

  /** The demo stack after "FFVII" is popped: "Fallout76" is not on it. */
  lemma DemoSearchMissing()
    ensures SearchStack(["Minecraft", "Skyrim", "DOOM", "Borderlands"], "Fallout76") == -1
  {
  }

  /** On the same stack the top element is at position 1 and the bottom one at position 4. */
  lemma DemoSearchPresent()
    ensures SearchStack(["Minecraft", "Skyrim", "DOOM", "Borderlands"], "Borderlands") == 1
    ensures SearchStack(["Minecraft", "Skyrim", "DOOM", "Borderlands"], "Minecraft") == 4
  {
  }
}
