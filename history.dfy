/**
 * Sequences of user actions replayed against the todo list, one handler
 * call per action, each starting from the list the previous one produced.
 */
module History {
  import opened Todos

  /** What a user can do: submit the form, tick a checkbox, press Delete. */
  datatype Action = Submit(name: string) | Check(id: int) | Remove(id: int)

  /** The list the matching handler leaves behind. */
  function Apply(l: TodoList, a: Action): (r: TodoList)
    ensures a.Submit? ==> |r| == |l| + 1
    ensures a.Check? ==> |r| == |l|
    ensures a.Remove? ==> |r| <= |l|
  {
    match a
    case Submit(name) => Add(l, name)
    case Check(id) => Toggle(l, id)
    case Remove(id) => Delete(l, id)
  }

  /** Replays `acts` in order, starting from `l`. */
  function Run(l: TodoList, acts: seq<Action>): (r: TodoList)
    decreases |acts|
  {
    if acts == [] then l else Run(Apply(l, acts[0]), acts[1..])
  }

  /** One form submission per name, in order. */
  function Submissions(names: seq<string>): (acts: seq<Action>)
    ensures |acts| == |names|
    ensures forall i :: 0 <= i < |names| ==> acts[i] == Submit(names[i])
  {
    if names == [] then [] else [Submit(names[0])] + Submissions(names[1..])
  }

  /** Replaying two logs one after the other is replaying their concatenation. */
  lemma {:induction false} RunConcat(l: TodoList, a: seq<Action>, b: seq<Action>)
    ensures Run(l, a + b) == Run(Run(l, a), b)
    decreases |a|
  {
    if a == [] {
      assert a + b == b;
    } else {
      assert (a + b)[0] == a[0];
      assert (a + b)[1..] == a[1..] + b;
      RunConcat(Apply(l, a[0]), a[1..], b);
    }
  }

  /**
   * Submitting `names` appends one incomplete record per name, in submission
   * order, numbered on from the current length.
   */
  lemma {:induction false} SubmissionsAppend(l: TodoList, names: seq<string>)
    ensures var r := Run(l, Submissions(names));
      |r| == |l| + |names| && r[..|l|] == l &&
      forall i :: 0 <= i < |names| ==> r[|l| + i] == Todo(|l| + i + 1, names[i], false)
    decreases |names|
  {
    if names != [] {
      var acts := Submissions(names);
      assert acts[0] == Submit(names[0]);
      assert acts[1..] == Submissions(names[1..]);
      var l' := Add(l, names[0]);
      SubmissionsAppend(l', names[1..]);
      var r := Run(l, acts);
      assert r == Run(l', Submissions(names[1..]));
      forall i | 0 <= i < |names|
        ensures r[|l| + i] == Todo(|l| + i + 1, names[i], false)
      {
        if i == 0 {
          assert r[|l|] == r[..|l'|][|l|];
        } else {
          assert r[|l| + i] == r[|l'| + (i - 1)];
        }
      }
      assert r[..|l|] == r[..|l'|][..|l|];
    }
  }

  /**
   * From the empty list, submissions alone number the records 1, 2, 3, ...
   * in order, so their ids are unique.
   */
  lemma SubmissionsFromEmpty(names: seq<string>)
    ensures var r := Run([], Submissions(names));
      |r| == |names| && UniqueIds(r) &&
      forall i :: 0 <= i < |names| ==> r[i] == Todo(i + 1, names[i], false)
  {
    var empty: TodoList := [];
    SubmissionsAppend(empty, names);
    var r := Run(empty, Submissions(names));
    forall i | 0 <= i < |names| ensures r[i] == Todo(i + 1, names[i], false) {
      assert r[|empty| + i] == Todo(|empty| + i + 1, names[i], false);
    }
  }

  /** A single submission on the empty list gives the one record with id 1. */
  lemma FirstSubmission(name: string)
    ensures Run([], [Submit(name)]) == [Todo(1, name, false)]
  {
  }

  /**
   * Ids are length-based, not a counter: after add, delete 1, add, the new
   * record reuses id 1.
   */
  lemma IdReusedAfterDelete(a: string, b: string)
    ensures Run([], [Submit(a), Remove(1), Submit(b)]) == [Todo(1, b, false)]
  {
    var acts := [Submit(a), Remove(1), Submit(b)];
    var one := Add([], a);
    assert one == [Todo(1, a, false)];
    assert Delete(one, 1) == [];
    assert acts[1..] == [Remove(1), Submit(b)];
    assert acts[1..][1..] == [Submit(b)];
    calc {
      Run([], acts);
      Run(one, [Remove(1), Submit(b)]);
      Run([], [Submit(b)]);
      { FirstSubmission(b); }
      [Todo(1, b, false)];
    }
  }

  /**
   * Ids collide: add, add, delete 1, add leaves two records with id 2. A
   * toggle of 2 then flips both, and a delete of 2 removes both.
   */
  lemma DuplicateIds(a: string, b: string, c: string)
    ensures var r := Run([], [Submit(a), Submit(b), Remove(1), Submit(c)]);
      r == [Todo(2, b, false), Todo(2, c, false)] &&
      !UniqueIds(r) &&
      Toggle(r, 2) == [Todo(2, b, true), Todo(2, c, true)] &&
      Delete(r, 2) == []
  {
    var acts := [Submit(a), Submit(b), Remove(1), Submit(c)];
    var one := Add([], a);
    var two := Add(one, b);
    assert two == [Todo(1, a, false), Todo(2, b, false)];
    var three := Delete(two, 1);
    assert three == [Todo(2, b, false)] by {
      assert two[1..] == [Todo(2, b, false)];
    }
    var r := Add(three, c);
    assert r == [Todo(2, b, false), Todo(2, c, false)];
    assert acts[1..] == [Submit(b), Remove(1), Submit(c)];
    assert acts[1..][1..] == [Remove(1), Submit(c)];
    assert acts[1..][1..][1..] == [Submit(c)];
    calc {
      Run([], acts);
      Run(one, [Submit(b), Remove(1), Submit(c)]);
      Run(two, [Remove(1), Submit(c)]);
      Run(three, [Submit(c)]);
      r;
    }
    assert r[0].id == r[1].id;
    var t := Toggle(r, 2);
    assert t[0] == Todo(2, b, true) && t[1] == Todo(2, c, true);
    assert r[1..] == [Todo(2, c, false)];
    assert Delete(r, 2) == Delete([Todo(2, c, false)], 2);
  }
}
