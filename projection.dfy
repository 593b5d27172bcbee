/** The dashboard's derived list (getFilteredAndSortedTasks, components/Dashboard.tsx):
    keep the tasks the status filter selects, then sort them by due date with a
    stable sort. The date parser `new Date(s).getTime()` is the parameter `time`. */
module TaskProjection {
  import opened TaskTypes

  /** Whether `task` passes the status filter. */
  predicate Matches(filter: StatusFilter, task: Task) {
    filter.All? || task.status == filter.status
  }

  /** `r` is `s` with some elements left out: the rest in their order in `s`. */
  ghost predicate Subsequence(r: seq<Task>, s: seq<Task>)
    decreases |s|
  {
    if r == [] then true
    else if s == [] then false
    else if r[0] == s[0] then Subsequence(r[1..], s[1..])
    else Subsequence(r, s[1..])
  }

  /** The tasks of `tasks` in status `status`, in their order (Array.prototype.filter). */
  function KeepStatus(tasks: seq<Task>, status: TaskStatus): (r: seq<Task>)
    ensures forall t :: t in r <==> t in tasks && t.status == status
    ensures multiset(r) <= multiset(tasks)
    ensures |r| <= |tasks|
  {
    if tasks == [] then []
    else
      assert tasks == [tasks[0]] + tasks[1..];
      (if tasks[0].status == status then [tasks[0]] else []) + KeepStatus(tasks[1..], status)
  }

  /** The status filter step: 'all' hands back the very same list, any other filter
      a new list of the matching tasks. */
  function FilterByStatus(tasks: seq<Task>, filter: StatusFilter): (r: seq<Task>)
    ensures filter.All? ==> r == tasks
    ensures forall t :: t in r <==> t in tasks && Matches(filter, t)
    ensures forall t :: multiset(r)[t] == if Matches(filter, t) then multiset(tasks)[t] else 0
    ensures Subsequence(r, tasks)
    ensures multiset(r) <= multiset(tasks)
  {
    match filter
    case All =>
      SubsequenceOfItself(tasks);
      tasks
    case Only(status) =>
      KeepStatusCounts(tasks, status);
      KeepStatusInOrder(tasks, status);
      KeepStatus(tasks, status)
  }

  /** The sort comparator on two due instants: positive exactly when the first task
      must move after the second. */
  function Compare(order: SortOrder, dateA: int, dateB: int): int {
    match order
    case Asc => dateA - dateB
    case Desc => dateB - dateA
  }

  /** Instants `x` then `y` may stand in this order: the comparator is not positive. */
  predicate InOrder(order: SortOrder, x: int, y: int) {
    Compare(order, x, y) <= 0
  }

  /** The due instant of a task. */
  function Due(t: Task, time: string -> int): int {
    time(t.dueDate)
  }

  /** Every earlier task of `s` is due no later ('asc') or no earlier ('desc') than every later one. */
  ghost predicate Sorted(s: seq<Task>, order: SortOrder, time: string -> int) {
    forall i, j :: 0 <= i < j < |s| ==> InOrder(order, Due(s[i], time), Due(s[j], time))
  }

  /** The tasks of `s` due at instant `d`, in their order in `s`. */
  function DueOn(s: seq<Task>, time: string -> int, d: int): (r: seq<Task>)
    ensures forall t :: t in r <==> t in s && Due(t, time) == d
    ensures |r| <= |s|
  {
    if s == [] then []
    else
      assert s == [s[0]] + s[1..];
      (if Due(s[0], time) == d then [s[0]] else []) + DueOn(s[1..], time, d)
  }

  /** Stability: for every due instant, `r` lists the tasks due then exactly as `s` does. */
  ghost predicate SameTies(s: seq<Task>, r: seq<Task>, time: string -> int) {
    forall d :: DueOn(s, time, d) == DueOn(r, time, d)
  }

  /** Places `t` before the first task it may precede; a task with the same due
      instant does not hold it back, so `t` goes before its ties. */
  function Insert(t: Task, s: seq<Task>, order: SortOrder, time: string -> int): (r: seq<Task>)
    ensures multiset(r) == multiset(s) + multiset{t}
    ensures |r| == |s| + 1
  {
    if s == [] || InOrder(order, Due(t, time), Due(s[0], time)) then [t] + s
    else
      assert s == [s[0]] + s[1..];
      [s[0]] + Insert(t, s[1..], order, time)
  }

  /** The stable sort by due date: insertion from the back, so that of two tasks due
      at the same instant the earlier one in `s` ends up first. */
  function SortByDue(s: seq<Task>, order: SortOrder, time: string -> int): (r: seq<Task>)
    ensures multiset(r) == multiset(s)
    ensures |r| == |s|
  {
    if s == [] then []
    else
      assert s == [s[0]] + s[1..];
      Insert(s[0], SortByDue(s[1..], order, time), order, time)
  }

  /** getFilteredAndSortedTasks as a value: filter, then sort stably by due date. */
  function Project(tasks: seq<Task>, filter: StatusFilter, order: SortOrder, time: string -> int): (r: seq<Task>)
    ensures forall t :: t in r <==> t in tasks && Matches(filter, t)
    ensures multiset(r) == multiset(FilterByStatus(tasks, filter))
    ensures filter.All? ==> multiset(r) == multiset(tasks)
    ensures |r| <= |tasks|
  {
    var kept := FilterByStatus(tasks, filter);
    var r := SortByDue(kept, order, time);
    assert forall t :: t in r <==> t in multiset(r);
    assert forall t :: t in kept <==> t in multiset(kept);
    assert |multiset(kept)| <= |multiset(tasks)|;
    r
  }

  lemma {:induction false} DueOnConcat(a: seq<Task>, b: seq<Task>, time: string -> int, d: int)
    ensures DueOn(a + b, time, d) == DueOn(a, time, d) + DueOn(b, time, d)
  {
    if a != [] {
      assert (a + b)[1..] == a[1..] + b;
      DueOnConcat(a[1..], b, time, d);
    } else {
      assert a + b == b;
    }
  }

  lemma DueOnPairSwap(x: Task, y: Task, time: string -> int, d: int)
    requires Due(x, time) != Due(y, time)
    ensures DueOn([x, y], time, d) == DueOn([y, x], time, d)
  {
    assert [x, y][1..] == [y] && [y, x][1..] == [x];
  }

  /** Exchanging two neighbours due at different instants keeps every tie list. */
  lemma SwapKeepsTies(s: seq<Task>, k: nat, time: string -> int)
    requires k + 1 < |s|
    requires Due(s[k], time) != Due(s[k + 1], time)
    ensures SameTies(s, s[k := s[k + 1]][k + 1 := s[k]], time)
  {
    var s' := s[k := s[k + 1]][k + 1 := s[k]];
    var p, x, y, q := s[..k], s[k], s[k + 1], s[k + 2..];
    assert s == p + ([x, y] + q);
    assert s' == p + ([y, x] + q);
    forall d
      ensures DueOn(s, time, d) == DueOn(s', time, d)
    {
      DueOnConcat(p, [x, y] + q, time, d);
      DueOnConcat([x, y], q, time, d);
      DueOnConcat(p, [y, x] + q, time, d);
      DueOnConcat([y, x], q, time, d);
      DueOnPairSwap(x, y, time, d);
    }
  }

  lemma {:induction false} InsertSorted(t: Task, s: seq<Task>, order: SortOrder, time: string -> int)
    requires Sorted(s, order, time)
    ensures Sorted(Insert(t, s, order, time), order, time)
  {
    if s != [] && !InOrder(order, Due(t, time), Due(s[0], time)) {
      var rest := Insert(t, s[1..], order, time);
      assert Insert(t, s, order, time) == [s[0]] + rest;
      InsertSorted(t, s[1..], order, time);
      HeadBeforeInserted(t, s, rest, order, time);
      ConsSorted(s[0], rest, order, time);
    }
  }

  /** When `t` goes past the head of sorted `s`, that head may precede every task of
      the insertion into the tail. */
  lemma HeadBeforeInserted(t: Task, s: seq<Task>, rest: seq<Task>, order: SortOrder, time: string -> int)
    requires Sorted(s, order, time)
    requires s != [] && !InOrder(order, Due(t, time), Due(s[0], time))
    requires rest == Insert(t, s[1..], order, time)
    ensures forall j :: 0 <= j < |rest| ==> InOrder(order, Due(s[0], time), Due(rest[j], time))
  {
    forall j | 0 <= j < |rest|
      ensures InOrder(order, Due(s[0], time), Due(rest[j], time))
    {
      assert rest[j] in multiset(rest);
      if rest[j] != t {
        assert rest[j] in s[1..];
        var k :| 0 <= k < |s[1..]| && s[1..][k] == rest[j];
        assert s[k + 1] == rest[j];
      }
    }
  }

  /** A task that may precede every task of a sorted list, put in front of it. */
  lemma ConsSorted(x: Task, rest: seq<Task>, order: SortOrder, time: string -> int)
    requires Sorted(rest, order, time)
    requires forall j :: 0 <= j < |rest| ==> InOrder(order, Due(x, time), Due(rest[j], time))
    ensures Sorted([x] + rest, order, time)
  {
    var r := [x] + rest;
    forall i, j | 0 <= i < j < |r|
      ensures InOrder(order, Due(r[i], time), Due(r[j], time))
    {
      if i > 0 {
        assert r[i] == rest[i - 1] && r[j] == rest[j - 1];
      } else {
        assert r[j] == rest[j - 1];
      }
    }
  }

  /** The sort's result is sorted. */
  lemma {:induction false} SortByDueSorted(s: seq<Task>, order: SortOrder, time: string -> int)
    ensures Sorted(SortByDue(s, order, time), order, time)
  {
    if s != [] {
      SortByDueSorted(s[1..], order, time);
      InsertSorted(s[0], SortByDue(s[1..], order, time), order, time);
    }
  }

  lemma DueOnSingle(t: Task, time: string -> int, d: int)
    ensures DueOn([t], time, d) == if Due(t, time) == d then [t] else []
  {
    assert [t][1..] == [];
  }

  lemma {:induction false} DueOnInsert(t: Task, s: seq<Task>, order: SortOrder, time: string -> int, d: int)
    ensures DueOn(Insert(t, s, order, time), time, d)
         == (if Due(t, time) == d then [t] else []) + DueOn(s, time, d)
  {
    if s == [] || InOrder(order, Due(t, time), Due(s[0], time)) {
      assert Insert(t, s, order, time) == [t] + s;
      DueOnConcat([t], s, time, d);
      DueOnSingle(t, time, d);
    } else {
      var rest := Insert(t, s[1..], order, time);
      assert Insert(t, s, order, time) == [s[0]] + rest;
      DueOnInsert(t, s[1..], order, time, d);
      DueOnPastHead(t, s, rest, order, time, d);
    }
  }

  /** `t` inserted past the head of `s`: the head keeps its place among the tasks due at `d`. */
  lemma DueOnPastHead(t: Task, s: seq<Task>, rest: seq<Task>, order: SortOrder, time: string -> int, d: int)
    requires s != [] && !InOrder(order, Due(t, time), Due(s[0], time))
    requires DueOn(rest, time, d) == (if Due(t, time) == d then [t] else []) + DueOn(s[1..], time, d)
    ensures DueOn([s[0]] + rest, time, d) == (if Due(t, time) == d then [t] else []) + DueOn(s, time, d)
  {
    var tail := DueOn(s[1..], time, d);
    assert s == [s[0]] + s[1..];
    DueOnConcat([s[0]], rest, time, d);
    DueOnConcat([s[0]], s[1..], time, d);
    DueOnSingle(s[0], time, d);
    if Due(s[0], time) == d {
      assert Due(t, time) != d;
      assert DueOn(rest, time, d) == tail;
      assert DueOn(s, time, d) == [s[0]] + tail;
    } else {
      assert DueOn(s, time, d) == [] + tail;
      assert [] + tail == tail;
      assert DueOn([s[0]] + rest, time, d) == [] + DueOn(rest, time, d);
      assert [] + DueOn(rest, time, d) == DueOn(rest, time, d);
    }
  }

  /** The sort is stable: tasks due at the same instant keep their relative order. */
  lemma {:induction false} SortByDueKeepsTies(s: seq<Task>, order: SortOrder, time: string -> int)
    ensures SameTies(s, SortByDue(s, order, time), time)
  {
    if s != [] {
      SortByDueKeepsTies(s[1..], order, time);
      forall d
        ensures DueOn(s, time, d) == DueOn(SortByDue(s, order, time), time, d)
      {
        DueOnInsert(s[0], SortByDue(s[1..], order, time), order, time, d);
      }
    }
  }

  /** In two sorted sequences with the same tie lists the first tasks are due at the same instant. */
  lemma FirstDueAgree(r1: seq<Task>, r2: seq<Task>, order: SortOrder, time: string -> int)
    requires Sorted(r1, order, time) && Sorted(r2, order, time)
    requires SameTies(r1, r2, time)
    requires r1 != [] && r2 != []
    ensures Due(r1[0], time) == Due(r2[0], time)
  {
    var a, b := r1[0], r2[0];
    var da, db := Due(a, time), Due(b, time);
    assert DueOn(r1, time, db) == DueOn(r2, time, db);
    assert b in DueOn(r2, time, db);
    var i :| 0 <= i < |r1| && r1[i] == b;
    assert InOrder(order, da, db);
    assert DueOn(r1, time, da) == DueOn(r2, time, da);
    assert a in DueOn(r1, time, da);
    var j :| 0 <= j < |r2| && r2[j] == a;
    assert InOrder(order, db, da);
  }

  /** Removing first tasks that are equal keeps the tie lists equal. */
  lemma TailTies(r1: seq<Task>, r2: seq<Task>, time: string -> int)
    requires SameTies(r1, r2, time)
    requires r1 != [] && r2 != [] && Due(r1[0], time) == Due(r2[0], time)
    ensures r1[0] == r2[0]
    ensures SameTies(r1[1..], r2[1..], time)
  {
    var a, b := r1[0], r2[0];
    var da := Due(a, time);
    assert DueOn(r1, time, da) == DueOn(r2, time, da);
    assert DueOn(r1, time, da)[0] == a;
    assert DueOn(r2, time, da)[0] == b;
    forall d
      ensures DueOn(r1[1..], time, d) == DueOn(r2[1..], time, d)
    {
      var head := if Due(a, time) == d then [a] else [];
      assert DueOn(r1, time, d) == head + DueOn(r1[1..], time, d);
      assert DueOn(r2, time, d) == head + DueOn(r2[1..], time, d);
      assert DueOn(r1, time, d) == DueOn(r2, time, d);
      assert DueOn(r1[1..], time, d) == DueOn(r1, time, d)[|head|..];
      assert DueOn(r2[1..], time, d) == DueOn(r2, time, d)[|head|..];
    }
  }

  /** Sequences with the same tie lists are empty together. */
  lemma TiesEmpty(r1: seq<Task>, r2: seq<Task>, time: string -> int)
    requires SameTies(r1, r2, time)
    ensures r1 == [] <==> r2 == []
  {
    if r1 != [] {
      assert DueOn(r1, time, Due(r1[0], time)) == DueOn(r2, time, Due(r1[0], time));
      assert r1[0] in DueOn(r1, time, Due(r1[0], time));
    }
    if r2 != [] {
      assert DueOn(r1, time, Due(r2[0], time)) == DueOn(r2, time, Due(r2[0], time));
      assert r2[0] in DueOn(r2, time, Due(r2[0], time));
    }
  }

  /** A sorted order is fixed by its tie lists: two sequences, both sorted the same
      way and with the same tasks due at every instant in the same order, are equal.
      So every stable sort with this comparator gives the same list. */
  lemma {:induction false} SortedTiesUnique(r1: seq<Task>, r2: seq<Task>, order: SortOrder, time: string -> int)
    requires Sorted(r1, order, time) && Sorted(r2, order, time)
    requires SameTies(r1, r2, time)
    ensures r1 == r2
  {
    TiesEmpty(r1, r2, time);
    if r1 != [] {
      FirstDueAgree(r1, r2, order, time);
      TailTies(r1, r2, time);
      SortedTiesUnique(r1[1..], r2[1..], order, time);
      assert r1 == [r1[0]] + r1[1..] && r2 == [r2[0]] + r2[1..];
    }
  }

  /** Filtering by status and picking one due instant commute. */
  lemma {:induction false} DueOnKeepStatus(s: seq<Task>, status: TaskStatus, time: string -> int, d: int)
    ensures DueOn(KeepStatus(s, status), time, d) == KeepStatus(DueOn(s, time, d), status)
  {
    if s != [] {
      DueOnKeepStatus(s[1..], status, time, d);
      var head := if s[0].status == status then [s[0]] else [];
      DueOnConcat(head, KeepStatus(s[1..], status), time, d);
      var due := if Due(s[0], time) == d then [s[0]] else [];
      KeepStatusConcat(due, DueOn(s[1..], time, d), status);
    }
  }

  lemma {:induction false} SubsequenceOfItself(s: seq<Task>)
    ensures Subsequence(s, s)
    decreases |s|
  {
    if s != [] {
      SubsequenceOfItself(s[1..]);
    }
  }

  /** The filter keeps every task in the chosen status exactly as often as it occurs,
      and no other task. */
  lemma {:induction false} KeepStatusCounts(tasks: seq<Task>, status: TaskStatus)
    ensures forall t :: multiset(KeepStatus(tasks, status))[t] == if t.status == status then multiset(tasks)[t] else 0
  {
    if tasks != [] {
      KeepStatusCounts(tasks[1..], status);
      assert tasks == [tasks[0]] + tasks[1..];
    }
  }

  /** The filter keeps the tasks in their order in the input. */
  lemma {:induction false} KeepStatusInOrder(tasks: seq<Task>, status: TaskStatus)
    ensures Subsequence(KeepStatus(tasks, status), tasks)
  {
    if tasks != [] {
      KeepStatusInOrder(tasks[1..], status);
      var rest := KeepStatus(tasks[1..], status);
      if tasks[0].status == status {
        assert KeepStatus(tasks, status) == [tasks[0]] + rest;
        assert ([tasks[0]] + rest)[1..] == rest;
      } else {
        assert KeepStatus(tasks, status) == rest;
        assert rest == [] || rest[0] != tasks[0];
      }
    }
  }

  /** A subsequence holds no task more often than the sequence it is taken from. */
  lemma {:induction false} SubsequenceMultiset(r: seq<Task>, s: seq<Task>)
    requires Subsequence(r, s)
    ensures multiset(r) <= multiset(s)
    decreases |s|
  {
    if r != [] {
      assert s == [s[0]] + s[1..];
      if r[0] == s[0] {
        SubsequenceMultiset(r[1..], s[1..]);
        assert r == [r[0]] + r[1..];
      } else {
        SubsequenceMultiset(r, s[1..]);
      }
    }
  }

  /** `r` holds every task passing `filter` as often as `tasks` does, and no other task. */
  ghost predicate FilterCounts(r: seq<Task>, tasks: seq<Task>, filter: StatusFilter) {
    forall t :: multiset(r)[t] == if Matches(filter, t) then multiset(tasks)[t] else 0
  }

  lemma CountsDropHead(r: seq<Task>, tasks: seq<Task>, filter: StatusFilter)
    requires r != [] && tasks != [] && r[0] == tasks[0]
    requires FilterCounts(r, tasks, filter)
    ensures FilterCounts(r[1..], tasks[1..], filter)
  {
    assert r == [r[0]] + r[1..] && tasks == [tasks[0]] + tasks[1..];
    forall t ensures multiset(r[1..])[t] == if Matches(filter, t) then multiset(tasks[1..])[t] else 0 {
      assert multiset(r)[t] == multiset(r[1..])[t] + (if t == r[0] then 1 else 0);
      assert multiset(tasks)[t] == multiset(tasks[1..])[t] + (if t == r[0] then 1 else 0);
    }
  }

  lemma CountsSkipHead(r: seq<Task>, tasks: seq<Task>, filter: StatusFilter)
    requires tasks != [] && !Matches(filter, tasks[0])
    requires FilterCounts(r, tasks, filter)
    ensures FilterCounts(r, tasks[1..], filter)
  {
    assert tasks == [tasks[0]] + tasks[1..];
    forall t ensures multiset(r)[t] == if Matches(filter, t) then multiset(tasks[1..])[t] else 0 {
      assert multiset(tasks)[t] == multiset(tasks[1..])[t] + (if t == tasks[0] then 1 else 0);
    }
  }

  /** A passing head that `r` does not start with would be missing from `r` once. */
  lemma CountsNeedHead(r: seq<Task>, tasks: seq<Task>, filter: StatusFilter)
    requires tasks != [] && Matches(filter, tasks[0])
    requires Subsequence(r, tasks[1..])
    ensures !FilterCounts(r, tasks, filter)
  {
    SubsequenceMultiset(r, tasks[1..]);
    assert tasks == [tasks[0]] + tasks[1..];
    assert multiset(tasks)[tasks[0]] == multiset(tasks[1..])[tasks[0]] + 1;
  }

  /** One step of the filter step: the head, when it passes, then the filtered tail. */
  lemma FilterCons(tasks: seq<Task>, filter: StatusFilter)
    requires tasks != []
    ensures FilterByStatus(tasks, filter)
         == (if Matches(filter, tasks[0]) then [tasks[0]] else []) + FilterByStatus(tasks[1..], filter)
  {
    match filter
    case All => assert tasks == [tasks[0]] + tasks[1..];
    case Only(status) => KeepStatusCons(tasks, status);
  }

  /** A task `r` starts with occurs in it, so it passes the filter. */
  lemma CountsHeadPasses(r: seq<Task>, tasks: seq<Task>, filter: StatusFilter)
    requires r != []
    requires FilterCounts(r, tasks, filter)
    ensures Matches(filter, r[0])
  {
    assert r == [r[0]] + r[1..];
    assert multiset(r)[r[0]] > 0;
  }

  /** The filter's result is the only list that keeps the input's order, holds every
      task passing the filter as often as the input does, and holds no other task. */
  lemma {:induction false} FilterUnique(tasks: seq<Task>, filter: StatusFilter, r: seq<Task>)
    requires Subsequence(r, tasks)
    requires FilterCounts(r, tasks, filter)
    ensures r == FilterByStatus(tasks, filter)
    decreases |tasks|
  {
    if tasks == [] {
      assert r == [];
      assert |FilterByStatus(tasks, filter)| == 0;
    } else if r != [] && r[0] == tasks[0] {
      CountsDropHead(r, tasks, filter);
      FilterUnique(tasks[1..], filter, r[1..]);
      FilterKeptHead(tasks, filter, r);
    } else {
      assert Subsequence(r, tasks[1..]);
      if Matches(filter, tasks[0]) {
        CountsNeedHead(r, tasks, filter);
        assert false;
      }
      CountsSkipHead(r, tasks, filter);
      FilterUnique(tasks[1..], filter, r);
      FilterSkippedHead(tasks, filter);
    }
  }

  lemma FilterKeptHead(tasks: seq<Task>, filter: StatusFilter, r: seq<Task>)
    requires tasks != [] && r != [] && r[0] == tasks[0]
    requires FilterCounts(r, tasks, filter)
    requires r[1..] == FilterByStatus(tasks[1..], filter)
    ensures r == FilterByStatus(tasks, filter)
  {
    CountsHeadPasses(r, tasks, filter);
    FilterCons(tasks, filter);
    assert r == [r[0]] + r[1..];
  }

  lemma FilterSkippedHead(tasks: seq<Task>, filter: StatusFilter)
    requires tasks != [] && !Matches(filter, tasks[0])
    ensures FilterByStatus(tasks, filter) == FilterByStatus(tasks[1..], filter)
  {
    FilterCons(tasks, filter);
    assert [] + FilterByStatus(tasks[1..], filter) == FilterByStatus(tasks[1..], filter);
  }

  lemma {:induction false} KeepStatusConcat(a: seq<Task>, b: seq<Task>, status: TaskStatus)
    ensures KeepStatus(a + b, status) == KeepStatus(a, status) + KeepStatus(b, status)
  {
    if a == [] {
      KeepStatusConcatEmpty(b, status);
    } else {
      KeepStatusConcat(a[1..], b, status);
      KeepStatusConcatStep(a, b, status);
    }
  }

  lemma AppendAssoc<T>(x: seq<T>, y: seq<T>, z: seq<T>)
    ensures x + (y + z) == (x + y) + z
  {
  }

  lemma ConcatTail<T>(a: seq<T>, b: seq<T>)
    requires a != []
    ensures (a + b)[0] == a[0] && (a + b)[1..] == a[1..] + b
  {
  }

  lemma KeepStatusConcatEmpty(b: seq<Task>, status: TaskStatus)
    ensures KeepStatus([] + b, status) == KeepStatus([], status) + KeepStatus(b, status)
  {
    assert [] + b == b;
  }

  lemma KeepStatusConcatStep(a: seq<Task>, b: seq<Task>, status: TaskStatus)
    requires a != []
    requires KeepStatus(a[1..] + b, status) == KeepStatus(a[1..], status) + KeepStatus(b, status)
    ensures KeepStatus(a + b, status) == KeepStatus(a, status) + KeepStatus(b, status)
  {
    ConcatTail(a, b);
    KeepStatusCons(a + b, status);
    KeepStatusCons(a, status);
    var h := if a[0].status == status then [a[0]] else [];
    AppendAssoc(h, KeepStatus(a[1..], status), KeepStatus(b, status));
  }






  /** The status filter keeps the tie lists of the input, filtered. */
  lemma FilterKeepsTies(s: seq<Task>, r: seq<Task>, filter: StatusFilter, time: string -> int)
    requires SameTies(s, r, time)
    ensures SameTies(FilterByStatus(s, filter), FilterByStatus(r, filter), time)
  {
    if filter.Only? {
      forall d
        ensures DueOn(KeepStatus(s, filter.status), time, d) == DueOn(KeepStatus(r, filter.status), time, d)
      {
        DueOnKeepStatus(s, filter.status, time, d);
        DueOnKeepStatus(r, filter.status, time, d);
      }
    }
  }

  /** The derived list is sorted: with 'asc' neighbours have non-decreasing due
      instants, with 'desc' non-increasing ones. */
  lemma ProjectionSorted(tasks: seq<Task>, filter: StatusFilter, order: SortOrder, time: string -> int)
    ensures Sorted(Project(tasks, filter, order, time), order, time)
    ensures var r := Project(tasks, filter, order, time);
      forall i :: 0 <= i < |r| - 1 ==>
        if order == Asc then Due(r[i], time) <= Due(r[i + 1], time)
        else Due(r[i], time) >= Due(r[i + 1], time)
  {
    SortByDueSorted(FilterByStatus(tasks, filter), order, time);
  }

  /** Tasks of the filtered list due at the same instant keep their relative order. */
  lemma ProjectionStable(tasks: seq<Task>, filter: StatusFilter, order: SortOrder, time: string -> int)
    ensures SameTies(FilterByStatus(tasks, filter), Project(tasks, filter, order, time), time)
  {
    SortByDueKeepsTies(FilterByStatus(tasks, filter), order, time);
  }

  /** Stability measured against the task list itself: at every due instant the
      derived list holds the tasks of `tasks` due then that pass the filter, in their
      order in `tasks`. */
  lemma ProjectionTiesFromTasks(tasks: seq<Task>, filter: StatusFilter, order: SortOrder, time: string -> int, d: int)
    ensures DueOn(Project(tasks, filter, order, time), time, d) == FilterByStatus(DueOn(tasks, time, d), filter)
  {
    ProjectionStable(tasks, filter, order, time);
    if filter.Only? {
      DueOnKeepStatus(tasks, filter.status, time, d);
    }
  }

  /** Any sorted, stable rearrangement of the filtered list is the derived list: the
      projection does not depend on which stable sort the runtime uses. */
  lemma ProjectionUnique(tasks: seq<Task>, filter: StatusFilter, order: SortOrder, time: string -> int, r: seq<Task>)
    requires Sorted(r, order, time)
    requires SameTies(FilterByStatus(tasks, filter), r, time)
    ensures r == Project(tasks, filter, order, time)
  {
    var kept := FilterByStatus(tasks, filter);
    SortByDueSorted(kept, order, time);
    SortByDueKeepsTies(kept, order, time);
    SortedTiesUnique(r, SortByDue(kept, order, time), order, time);
  }

  /** Sorting the task list beforehand, in either order, never changes a later
      derived list: the in-place sort of the 'all' case is invisible on screen. */
  lemma ProjectionIgnoresPriorSort(tasks: seq<Task>, before: SortOrder, filter: StatusFilter, order: SortOrder, time: string -> int)
    ensures Project(SortByDue(tasks, before, time), filter, order, time) == Project(tasks, filter, order, time)
  {
    var sorted := SortByDue(tasks, before, time);
    SortByDueKeepsTies(tasks, before, time);
    FilterKeepsTies(tasks, sorted, filter, time);
    ProjectionSorted(sorted, filter, order, time);
    ProjectionStable(sorted, filter, order, time);
    ProjectionUnique(tasks, filter, order, time, Project(sorted, filter, order, time));
  }

  lemma KeepStatusCons(s: seq<Task>, status: TaskStatus)
    requires s != []
    ensures KeepStatus(s, status) == (if s[0].status == status then [s[0]] else []) + KeepStatus(s[1..], status)
  {
  }

  lemma KeepStatusSingle(t: Task, status: TaskStatus)
    ensures KeepStatus([t], status) == if t.status == status then [t] else []
  {
    assert [t][1..] == [];
  }

  lemma ExampleFilter(t1: Task, t2: Task, t3: Task)
    requires t1.status == Todo && t2.status == Done && t3.status == Todo
    ensures KeepStatus([t1, t2, t3], Todo) == [t1, t3]
  {
    assert [t1, t2, t3][1..] == [t2, t3];
    KeepStatusCons([t1, t2, t3], Todo);
    ExampleFilterTail(t2, t3);
  }

  lemma ExampleFilterTail(t2: Task, t3: Task)
    requires t2.status == Done && t3.status == Todo
    ensures KeepStatus([t2, t3], Todo) == [t3]
  {
    assert [t2, t3][1..] == [t3];
    KeepStatusCons([t2, t3], Todo);
    KeepStatusSingle(t3, Todo);
  }

  lemma ExampleSort(t1: Task, t3: Task, time: string -> int)
    requires Due(t3, time) < Due(t1, time)
    ensures SortByDue([t1, t3], Asc, time) == [t3, t1]
  {
    assert [t1, t3][1..] == [t3] && [t3][1..] == [];
    assert SortByDue([t3], Asc, time) == [t3];
    assert Insert(t1, [], Asc, time) == [t1];
  }

  /** Two 'todo' tasks and one 'done' task, filtered to 'todo' and sorted earliest
      first: the later-created but earlier-due task comes first, the 'done' one is gone. */
  lemma ProjectionExample(t1: Task, t2: Task, t3: Task, time: string -> int)
    requires t1.status == Todo && t2.status == Done && t3.status == Todo
    requires Due(t3, time) < Due(t1, time)
    ensures Project([t1, t2, t3], Only(Todo), Asc, time) == [t3, t1]
  {
    ExampleFilter(t1, t2, t3);
    ExampleSort(t1, t3, time);
  }

  /** Midway through moving `s[j]` left: apart from position `j` the prefix `s[..i + 1]`
      is sorted, and `s[j]` may stand before everything after it in that prefix. */
  ghost predicate Sinking(s: seq<Task>, i: nat, j: nat, order: SortOrder, time: string -> int) {
    && j <= i < |s|
    && (forall p, q :: 0 <= p < q <= i && p != j && q != j ==> InOrder(order, Due(s[p], time), Due(s[q], time)))
    && (forall q :: j < q <= i ==> InOrder(order, Due(s[j], time), Due(s[q], time)))
  }

  lemma SinkStep(s: seq<Task>, i: nat, j: nat, order: SortOrder, time: string -> int)
    requires Sinking(s, i, j, order, time) && 0 < j
    requires !InOrder(order, Due(s[j - 1], time), Due(s[j], time))
    ensures Sinking(s[j - 1 := s[j]][j := s[j - 1]], i, j - 1, order, time)
  {
  }

  lemma SinkDone(s: seq<Task>, i: nat, j: nat, order: SortOrder, time: string -> int)
    requires Sinking(s, i, j, order, time)
    requires j == 0 || InOrder(order, Due(s[j - 1], time), Due(s[j], time))
    ensures forall p, q :: 0 <= p < q <= i ==> InOrder(order, Due(s[p], time), Due(s[q], time))
  {
    if j > 0 {
      forall p | 0 <= p < j - 1
        ensures InOrder(order, Due(s[p], time), Due(s[j], time))
      {
        assert InOrder(order, Due(s[p], time), Due(s[j - 1], time));
      }
    }
  }

  /** Moves `a[i]` left past every task of the sorted prefix `a[..i]` that must come
      after it, one exchange of neighbours at a time. */
  method SinkInto(a: array<Task>, i: nat, order: SortOrder, time: string -> int)
    requires i < a.Length
    requires forall p, q :: 0 <= p < q < i ==> InOrder(order, Due(a[p], time), Due(a[q], time))
    modifies a
    ensures forall p, q :: 0 <= p < q <= i ==> InOrder(order, Due(a[p], time), Due(a[q], time))
    ensures SameTies(old(a[..]), a[..], time)
  {
    var j: nat := i;
    assert Sinking(a[..], i, j, order, time);
    while j > 0 && !InOrder(order, Due(a[j - 1], time), Due(a[j], time))
      invariant Sinking(a[..], i, j, order, time)
      invariant SameTies(old(a[..]), a[..], time)
    {
      ghost var before := a[..];
      SwapKeepsTies(before, j - 1, time);
      SinkStep(before, i, j, order, time);
      a[j - 1], a[j] := a[j], a[j - 1];
      assert a[..] == before[j - 1 := before[j]][j := before[j - 1]];
      j := j - 1;
    }
    SinkDone(a[..], i, j, order, time);
  }

  /** Array.prototype.sort with the due-date comparator, here as an insertion sort:
      by SortedTiesUnique every stable sort leaves the same order. */
  method SortInPlace(a: array<Task>, order: SortOrder, time: string -> int)
    modifies a
    ensures a[..] == SortByDue(old(a[..]), order, time)
  {
    var i := 0;
    while i < a.Length
      invariant 0 <= i <= a.Length
      invariant forall p, q :: 0 <= p < q < i ==> InOrder(order, Due(a[p], time), Due(a[q], time))
      invariant SameTies(old(a[..]), a[..], time)
    {
      SinkInto(a, i, order, time);
      i := i + 1;
    }
    SortByDueSorted(old(a[..]), order, time);
    SortByDueKeepsTies(old(a[..]), order, time);
    SortedTiesUnique(a[..], SortByDue(old(a[..]), order, time), order, time);
  }
}
