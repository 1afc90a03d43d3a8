/** Tasks and Groups seen alike: the graph code treats both as nodes that have a reference, a status
    and a list of mentioned references. */
module Items {
  import opened Core

  function ChildRefs(children: seq<Child>): (r: seq<Ref>) {
    seq(|children|, i requires 0 <= i < |children| => children[i].task)
  }

  datatype Item = TaskItem(task: Task) | GroupItem(group: Group) {
    function AsRef(): Ref {
      match this
      case TaskItem(t) => t.AsRef()
      case GroupItem(g) => g.AsRef()
    }

    function Status(): Status {
      match this
      case TaskItem(t) => t.status
      case GroupItem(g) => g.status
    }

    /** The references an item depends on, a Group's children included (`_object_dependencies`). */
    function Mentions(): seq<Ref> {
      match this
      case TaskItem(t) => t.dependsOn
      case GroupItem(g) => g.dependsOn + ChildRefs(g.children)
    }
  }

  /** The first Task with this reference: the source's `next(item for item in tasks if ...)`. */
  function FindTask(tasks: seq<Task>, ref: Ref): (o: Option<Task>)
    ensures o.Some? ==> o.value in tasks && o.value.AsRef() == ref
    ensures o.None? ==> forall t :: t in tasks ==> t.AsRef() != ref
  {
    if tasks == [] then None
    else if tasks[0].AsRef() == ref then Some(tasks[0])
    else FindTask(tasks[1..], ref)
  }

  function FindGroup(groups: seq<Group>, ref: Ref): (o: Option<Group>)
    ensures o.Some? ==> o.value in groups && o.value.AsRef() == ref
    ensures o.None? ==> forall g :: g in groups ==> g.AsRef() != ref
  {
    if groups == [] then None
    else if groups[0].AsRef() == ref then Some(groups[0])
    else FindGroup(groups[1..], ref)
  }

  /** Items listed in order, and the references of those that are active: the Task half or the Group
      half of a graph. */
  datatype Lane = Lane(items: seq<Item>, active: seq<Ref>)

  function TaskItems(tasks: seq<Task>): (r: seq<Item>) {
    seq(|tasks|, i requires 0 <= i < |tasks| => TaskItem(tasks[i]))
  }

  function GroupItems(groups: seq<Group>): (r: seq<Item>) {
    seq(|groups|, i requires 0 <= i < |groups| => GroupItem(groups[i]))
  }

  function RefsOf(items: seq<Item>): (r: seq<Ref>) {
    seq(|items|, i requires 0 <= i < |items| => items[i].AsRef())
  }

  predicate UniqueRefs(items: seq<Item>) {
    forall i, j :: 0 <= i < j < |items| ==> items[i].AsRef() != items[j].AsRef()
  }

  predicate HasRef(items: seq<Item>, ref: Ref) {
    exists i :: 0 <= i < |items| && items[i].AsRef() == ref
  }

  /** The first listed item with this reference. */
  function FindItem(items: seq<Item>, ref: Ref): (o: Option<Item>)
    ensures o.Some? ==> o.value in items && o.value.AsRef() == ref
    ensures o.None? ==> forall m :: m in items ==> m.AsRef() != ref
  {
    if items == [] then None
    else if items[0].AsRef() == ref then Some(items[0])
    else FindItem(items[1..], ref)
  }

  /** The item that has a reference; there is one, and with unique references only one. */
  ghost function Lookup(items: seq<Item>, ref: Ref): (item: Item)
    requires HasRef(items, ref)
    ensures item in items && item.AsRef() == ref
  {
    var i :| 0 <= i < |items| && items[i].AsRef() == ref;
    items[i]
  }

  lemma LookupUnique(items: seq<Item>, item: Item)
    requires UniqueRefs(items) && item in items
    ensures HasRef(items, item.AsRef()) && Lookup(items, item.AsRef()) == item
  {
    var i :| 0 <= i < |items| && items[i] == item;
    assert HasRef(items, items[i].AsRef());
  }

  lemma {:induction false} SameRefSameTask(tasks: seq<Task>, a: Task, b: Task)
    requires UniqueRefs(TaskItems(tasks)) && a in tasks && b in tasks && a.AsRef() == b.AsRef()
    ensures a == b
  {
    var i :| 0 <= i < |tasks| && tasks[i] == a;
    var j :| 0 <= j < |tasks| && tasks[j] == b;
    assert TaskItems(tasks)[i].AsRef() == TaskItems(tasks)[j].AsRef();
  }
}
