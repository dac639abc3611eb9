/**
 * The todo entity's own behaviour: subtasks and reminders are kept in lists
 * whose elements point back to the todo that owns them, and two todos are
 * equal when they are the same object or share a non-null id.
 */
module TodoEntity {
  import opened Wrappers

  /** A step of a todo; `todo` is the owning side's back-reference. */
  class TodoSubtask {
    var todo: Todo?

    constructor()
      ensures todo == null
    {
      todo := null;
    }
  }

  /** A reminder of a todo; `todo` is the owning side's back-reference. */
  class TodoReminder {
    var todo: Todo?

    constructor()
      ensures todo == null
    {
      todo := null;
    }
  }

  /** The position of the first `x` in `xs`. */
  function FirstIndex<T(==)>(xs: seq<T>, x: T): (i: nat)
    requires x in xs
    ensures i < |xs| && xs[i] == x && x !in xs[..i]
  {
    if xs[0] == x then 0
    else
      assert xs == [xs[0]] + xs[1..];
      1 + FirstIndex(xs[1..], x)
  }

  /** `List.remove(Object)`: drops the first element equal to `x`, if any. */
  function RemoveFirst<T(==)>(xs: seq<T>, x: T): seq<T> {
    if x in xs then xs[..FirstIndex(xs, x)] + xs[FirstIndex(xs, x) + 1..] else xs
  }

  /** Removal takes away one occurrence of `x` and keeps every other element. */
  lemma RemoveFirstCounts<T>(xs: seq<T>, x: T)
    ensures multiset(RemoveFirst(xs, x)) == multiset(xs) - multiset{x}
  {
    if x in xs {
      var i := FirstIndex(xs, x);
      var before, after := xs[..i], xs[i + 1..];
      assert multiset(xs) == multiset(before) + multiset{x} + multiset(after) by {
        assert xs == before + [x] + after;
      }
    }
  }

  /** Removal brings in nothing new, and an element listed at most once is
      gone afterwards. */
  lemma RemoveFirstMembers<T>(xs: seq<T>, x: T)
    ensures forall y :: y in RemoveFirst(xs, x) ==> y in xs
    ensures multiset(xs)[x] <= 1 ==> x !in RemoveFirst(xs, x)
  {
    RemoveFirstCounts(xs, x);
    var r := RemoveFirst(xs, x);
    forall y | y in r ensures y in xs {
      assert y in multiset(r);
    }
    if x in r {
      assert x in multiset(r);
    }
  }

  /** Removing what was just appended, when it was not there before, restores the list. */
  lemma AppendThenRemove<T>(xs: seq<T>, x: T)
    requires x !in xs
    ensures RemoveFirst(xs + [x], x) == xs
  {
    assert FirstIndex(xs + [x], x) == |xs| by {
      var i := FirstIndex(xs + [x], x);
      assert (xs + [x])[..i] == xs[..i];
    }
    assert (xs + [x])[..|xs|] == xs;
  }

  /** An element appended twice and removed once stays listed once. */
  lemma AppendTwiceRemoveOnce<T>(xs: seq<T>, x: T)
    requires x !in xs
    ensures RemoveFirst(xs + [x] + [x], x) == xs + [x]
  {
    var ys := xs + [x] + [x];
    assert FirstIndex(ys, x) == |xs| by {
      var i := FirstIndex(ys, x);
      assert ys[..i] == xs[..i];
    }
    assert ys[..|xs|] == xs;
    assert ys[|xs| + 1..] == [x];
  }

  /** The hash of every todo: `getClass().hashCode()`, a per-class constant. */
  const ClassHash: int := 0

  class Todo {
    var id: Option<string>
    var tags: set<string>
    var subtasks: seq<TodoSubtask>
    var reminders: seq<TodoReminder>

    /** A built todo: the three collections default to empty. */
    constructor(id: Option<string>)
      ensures this.id == id
      ensures tags == {} && subtasks == [] && reminders == []
    {
      this.id := id;
      tags := {};
      subtasks := [];
      reminders := [];
    }

    /** Every listed subtask and reminder points back to this todo. */
    predicate Synced()
      reads this, subtasks, reminders
    {
      (forall s :: s in subtasks ==> s.todo == this) &&
      (forall r :: r in reminders ==> r.todo == this)
    }

    /** `addSubtask`: appended at the end, pointed back at this todo. */
    method AddSubtask(subtask: TodoSubtask)
      modifies this, subtask
      ensures subtasks == old(subtasks) + [subtask] && subtask.todo == this
      ensures reminders == old(reminders) && tags == old(tags) && id == old(id)
      ensures old(Synced()) ==> Synced()
    {
      subtasks := subtasks + [subtask];
      subtask.todo := this;
    }

    /** `removeSubtask`: its first occurrence dropped, its back-reference cleared. */
    method RemoveSubtask(subtask: TodoSubtask)
      modifies this, subtask
      ensures subtasks == RemoveFirst(old(subtasks), subtask) && subtask.todo == null
      ensures reminders == old(reminders) && tags == old(tags) && id == old(id)
      ensures old(Synced()) && multiset(old(subtasks))[subtask] <= 1 ==> Synced()
    {
      RemoveFirstMembers(subtasks, subtask);
      subtasks := RemoveFirst(subtasks, subtask);
      subtask.todo := null;
    }

    /** `addReminder`: appended at the end, pointed back at this todo. */
    method AddReminder(reminder: TodoReminder)
      modifies this, reminder
      ensures reminders == old(reminders) + [reminder] && reminder.todo == this
      ensures subtasks == old(subtasks) && tags == old(tags) && id == old(id)
      ensures old(Synced()) ==> Synced()
    {
      reminders := reminders + [reminder];
      reminder.todo := this;
    }

    /** `removeReminder`: its first occurrence dropped, its back-reference cleared. */
    method RemoveReminder(reminder: TodoReminder)
      modifies this, reminder
      ensures reminders == RemoveFirst(old(reminders), reminder) && reminder.todo == null
      ensures subtasks == old(subtasks) && tags == old(tags) && id == old(id)
      ensures old(Synced()) && multiset(old(reminders))[reminder] <= 1 ==> Synced()
    {
      RemoveFirstMembers(reminders, reminder);
      reminders := RemoveFirst(reminders, reminder);
      reminder.todo := null;
    }

    /** `equals`: the same object, or both ids non-null and equal. */
    predicate Equals(o: Todo?)
      reads this, o
    {
      this == o || (o != null && id.Some? && id == o.id)
    }

    /** `hashCode`. */
    function HashCode(): int {
      ClassHash
    }
  }

  /** `equals` is reflexive, symmetric and transitive, and `hashCode` agrees with it. */
  lemma EqualsIsEquivalence(a: Todo, b: Todo, c: Todo)
    ensures a.Equals(a)
    ensures a.Equals(b) ==> b.Equals(a)
    ensures a.Equals(b) && b.Equals(c) ==> a.Equals(c)
    ensures a.Equals(b) ==> a.HashCode() == b.HashCode()
  {
  }

  /** Two distinct todos without an id are never equal. */
  lemma UnsavedTodosDiffer(a: Todo, b: Todo)
    requires a != b && a.id.None?
    ensures !a.Equals(b) && !b.Equals(a)
  {
  }
}
