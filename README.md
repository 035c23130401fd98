# Linked list and stack search, modelled in Dafny

This project models two pieces of a small Python teaching repository on linear
data structures.

- `linked_list.py`: a singly linked chain of `Node` objects with explicit
  `head` and `tail` pointers. It is used as a stack (`push` at the front, `pop`
  from the front) and as a queue (`offer` at the back, `poll` from the front).
  The model (`linked_list.dfy`, module `LinkedLists`) keeps both classes as
  Dafny classes whose methods update `head`, `tail` and `tail.next` in place.
  A ghost view (`contents`, the values head to tail; `nodes`, the chain; `Repr`,
  the footprint) and the invariant `Valid()` capture the chain's shape: the
  nodes are distinct (no cycle), each links to the next, `head` is the first
  and `tail` the last, `tail.next` is null, and `head` and `tail` are both null
  exactly when the list is empty. Every mutating method keeps `Valid()` and
  states its effect on `contents` (prepend, drop the first, append) and on the
  pointers. `pop` on an empty list, which raises `IndexError("pop from empty
  LinkedList")` in Python, returns `IndexError(message)` of the `Removed`
  datatype and changes nothing. Traversal (`__iter__`) is a loop over the
  `next` links that returns the values in order; rendering (`__repr__`) joins
  them with `" -> "`.
- `stack_data_structure.py`: `search_stack`, Java's `Stack.search` over a
  Python list whose end is the top. The model (`stack_search.dfy`, module
  `StackSearch`) follows the code: reverse the list (`Sequences.Reverse`, the
  slice `[::-1]`), find the first match (`IndexOf`, Python's `list.index`, with
  `None` for its `ValueError`), add one, or answer -1. Its contract says the
  result is -1 exactly when the target is absent, and otherwise the 1-based
  distance from the top of the topmost occurrence.

`sequences.dfy` (module `Sequences`) holds the sequence reversal shared by
both.

## Model

| member | source | states |
|---|---|---|
| LinkedLists.LinkedList.Valid | linked_list.py:19-68 | the chain invariant that every operation keeps: the nodes are distinct (no cycle), each holds the matching stored value and links to the next, head is the first node and tail the last, tail has no successor, and head and tail are both null exactly when the list is empty; its contract adds that a valid list lies in its own footprint |
| LinkedLists.Node.constructor | linked_list.py:3-9 | a new node holds the given value and link; the link defaults to none |
| LinkedLists.LinkedList.constructor | linked_list.py:20-24 | a new list is valid, empty, with head and tail both null |
| LinkedLists.LinkedList.IsEmpty | linked_list.py:26-29 | the answer is true exactly when head is null, which under the invariant is exactly when tail is null and when no values are stored |
| LinkedLists.LinkedList.Push | linked_list.py:31-40 | contents become `[v] + old contents`; the new head is a fresh node holding v and linking to the old head; tail becomes that node when the list was empty and stays otherwise; the chain invariant holds again |
| LinkedLists.LinkedList.Pop | linked_list.py:42-55 | on an empty list the result is IndexError with the message "pop from empty LinkedList" and the list is unchanged; otherwise the result is the old first value, contents become the old contents without it, head advances to the old head's successor, and when the list becomes empty head and tail are both null; the chain invariant holds again |
| LinkedLists.LinkedList.Offer | linked_list.py:57-68 | contents become `old contents + [v]`; the new tail is a fresh node holding v with no successor; on an empty list head is that node too, otherwise head stays and the old tail links to the new node; the chain invariant holds again |
| LinkedLists.LinkedList.Poll | linked_list.py:70-72 | exactly the contract of Pop |
| LinkedLists.LinkedList.Items | linked_list.py:74-81 | walking the links from head yields the stored values in head-to-tail order; the walk terminates and changes nothing |
| LinkedLists.Render | linked_list.py:83-86 | the rendering of a list of strings is its values head to tail joined by " -> " |
| LinkedLists.JoinSnoc | linked_list.py:86 | joining parts plus one more part is the join of the parts, the separator, and the new part |
| LinkedLists.Join | linked_list.py:86 | `sep.join(parts)`: for non-empty parts its length is the summed length of the parts plus one separator between each two neighbours |
| LinkedLists.JoinStartsWith | linked_list.py:86 | the join begins with the first part, followed by the separator when more parts follow |
| LinkedLists.JoinEndsWith | linked_list.py:86 | the join ends with the last part |
| LinkedLists.JoinQueueDemo | linked_list.py:101 | joining "A", "B", "C", "D", "F" with " -> " gives "A -> B -> C -> D -> F" |
| LinkedLists.JoinStackDemo | linked_list.py:113-117 | joining "F", "D", "C", "B", "A" gives "F -> D -> C -> B -> A", and joining "D", "C", "B", "A" gives "D -> C -> B -> A" |
| LinkedLists.OfferThenPollAll | linked_list.py:91-101 | for any values, offering them in order and then polling as many times returns them in the same order (FIFO) |
| LinkedLists.PushThenPopAll | linked_list.py:103-117 | for any values, pushing them in order and then popping as many times returns them in reverse order (LIFO) |
| LinkedLists.PopAll | linked_list.py:42-55 | popping a valid list until IsEmpty answers true returns the stored values head to tail and leaves the list valid and empty |
| LinkedLists.QueueDemo | linked_list.py:93-101 | offering "A", "B", "C", "D", "F" renders "A -> B -> C -> D -> F" |
| LinkedLists.StackDemo | linked_list.py:105-117 | pushing "A", "B", "C", "D", "F" renders "F -> D -> C -> B -> A"; pop then returns "F" and the list renders "D -> C -> B -> A" |
| Sequences.Reverse | stack_data_structure.py:48 | the slice `stack[::-1]`: the reversal has the same length as the list |
| Sequences.ReverseAt | stack_data_structure.py:44-48 | position k of the reversed list holds the element k places from the end, so the top of the stack is first |
| Sequences.ReverseMembers | stack_data_structure.py:44-48 | the reversed list holds exactly the elements of the original |
| StackSearch.IndexOf | stack_data_structure.py:46-51 | `list.index`: no answer (ValueError) exactly when the target is absent; otherwise a valid index that holds the target with no earlier index holding it |
| StackSearch.SearchStack | stack_data_structure.py:42-53 | the result is -1 exactly when the target is absent; otherwise it lies in 1..len, the element that many places from the top holds the target, and no element above it does |
| StackSearch.SearchStackUnique | stack_data_structure.py:36-39 | the topmost-occurrence conditions determine the result: any position meeting them is the one returned |
| StackSearch.DemoSearchMissing | stack_data_structure.py:56-61 | searching the demo stack ["Minecraft", "Skyrim", "DOOM", "Borderlands"] for "Fallout76" gives -1 |
| StackSearch.DemoSearchPresent | stack_data_structure.py:14-17 | on that stack the top element "Borderlands" is at position 1 and the bottom element "Minecraft" at position 4 |

## Left out

- `queue_data_structure.py` and `priority_queue_data_structure.py`: they only call the library containers `collections.deque` and `queue.PriorityQueue` and print the results; there is no user-written logic to model. The comments of `priority_queue_data_structure.py` describe the library's own min-heap; the repository has no heap code of its own, so no heap is modelled.
- The module-level demo of `stack_data_structure.py` (lines 3-34): plain `list.append`, `list.pop` and `[-1]` calls and printing. Only the stack it leaves behind is used, in the search lemmas.
- All printing and the `if __name__ == "__main__"` blocks: console output. The expected outputs are stated by `QueueDemo`, `StackDemo` and `DemoSearchMissing`.
- `Node.__repr__` and Python's `str()` of arbitrary objects: rendering is modelled for lists of strings only, where `str` is the identity.
- The laziness of the `__iter__` generator: `Items` collects the values eagerly, which is indistinguishable in single-threaded use.
- Python exceptions: `IndexError` from `pop` is the `IndexError` value of `Removed`, and the `ValueError` of `list.index` is `None`.
- Aliasing from outside the list: the invariant `Valid()` assumes no other code changes the list's nodes; Python does not enforce this.
- Python's dynamic typing: `search_stack` compares with `==`, modelled as Dafny equality on a type with equality.
