/**
 * The todo-list state transitions of the App component: a list of Todo
 * records and the three pure transformations its event handlers compute
 * before replacing the component's state with the result.
 */
module Todos {

  /** One todo entry. Ids are integers; nothing keeps them unique. */
  datatype Todo = Todo(id: int, name: string, completed: bool)

  /** The component's state: todos in insertion (display) order. */
  type TodoList = seq<Todo>

  /** True when some record in `l` carries `id`. */
  predicate HasId(l: TodoList, id: int)
  {
    exists i :: 0 <= i < |l| && l[i].id == id
  }

  /** Number of records in `l` that carry `id`. */
  function Count(l: TodoList, id: int): (n: nat)
    ensures n <= |l|
    ensures n == 0 <==> !HasId(l, id)
  {
    if l == [] then 0
    else (if l[0].id == id then 1 else 0) + Count(l[1..], id)
  }

  /** No two records share an id: the intended, but unenforced, invariant. */
  predicate UniqueIds(l: TodoList)
  {
    forall i, j :: 0 <= i < j < |l| ==> l[i].id != l[j].id
  }

  // ---------------------------------------------------------------------------
  // addTodo
  // ---------------------------------------------------------------------------

  /**
   * Appends a new, incomplete record whose id is one more than the current
   * length. The name is taken exactly as submitted: no trimming and no
   * emptiness check.
   */
  function Add(l: TodoList, name: string): (r: TodoList)
    ensures |r| == |l| + 1
    ensures r[..|l|] == l
    ensures r[|l|].id == |l| + 1 && r[|l|].name == name && !r[|l|].completed
  {
    l + [Todo(|l| + 1, name, false)]
  }

  /**
   * Adding keeps ids unique exactly when no existing record already has the
   * id the new one receives.
   */
  lemma AddUniqueIff(l: TodoList, name: string)
    requires UniqueIds(l)
    ensures UniqueIds(Add(l, name)) <==> !HasId(l, |l| + 1)
  {
    var r := Add(l, name);
    if UniqueIds(r) {
      forall i | 0 <= i < |l| ensures l[i].id != |l| + 1 {
        assert r[i] == l[i];
      }
    }
  }

  // ---------------------------------------------------------------------------
  // toggleCompeted
  // ---------------------------------------------------------------------------

  /** One step of the handler's `map` callback. */
  function ToggleOne(t: Todo, id: int): (u: Todo)
  {
    if t.id == id then t.(completed := !t.completed) else t
  }

  /**
   * Flips `completed` on every record whose id equals `id`; every other
   * record passes through unchanged. Length, order, ids and names are kept.
   */
  function Toggle(l: TodoList, id: int): (r: TodoList)
    ensures |r| == |l|
    ensures forall i :: 0 <= i < |l| ==>
      r[i].id == l[i].id && r[i].name == l[i].name &&
      (r[i].completed <==> (if l[i].id == id then !l[i].completed else l[i].completed))
  {
    if l == [] then [] else [ToggleOne(l[0], id)] + Toggle(l[1..], id)
  }

  /** Toggle leaves the list unchanged exactly when no record matches. */
  lemma ToggleUnchangedIff(l: TodoList, id: int)
    ensures Toggle(l, id) == l <==> !HasId(l, id)
  {
    var r := Toggle(l, id);
    if HasId(l, id) {
      var i :| 0 <= i < |l| && l[i].id == id;
      assert r[i].completed != l[i].completed;
    } else {
      assert forall i :: 0 <= i < |l| ==> r[i] == l[i];
    }
  }

  /** Toggling the same id twice restores the original list. */
  lemma {:induction false} ToggleInvolution(l: TodoList, id: int)
    ensures Toggle(Toggle(l, id), id) == l
  {
    if l != [] {
      ToggleInvolution(l[1..], id);
      assert Toggle(l, id)[1..] == Toggle(l[1..], id);
    }
  }

  /** Toggles of two ids can be applied in either order. */
  lemma ToggleCommutes(l: TodoList, a: int, b: int)
    ensures Toggle(Toggle(l, a), b) == Toggle(Toggle(l, b), a)
  {
    var x, y := Toggle(Toggle(l, a), b), Toggle(Toggle(l, b), a);
    assert forall i :: 0 <= i < |l| ==> x[i] == y[i];
  }

  /** The map works record by record, so it distributes over concatenation. */
  lemma {:induction false} ToggleConcat(a: TodoList, b: TodoList, id: int)
    ensures Toggle(a + b, id) == Toggle(a, id) + Toggle(b, id)
  {
    if a != [] {
      assert (a + b)[1..] == a[1..] + b;
      ToggleConcat(a[1..], b, id);
    } else {
      assert a + b == b;
    }
  }

  /** Toggling does not change which ids are present, nor how often. */
  lemma {:induction false} ToggleKeepsCount(l: TodoList, id: int, k: int)
    ensures Count(Toggle(l, id), k) == Count(l, k)
  {
    if l != [] {
      assert Toggle(l, id)[1..] == Toggle(l[1..], id);
      ToggleKeepsCount(l[1..], id, k);
    }
  }

  // ---------------------------------------------------------------------------
  // deleteItem
  // ---------------------------------------------------------------------------

  /**
   * Keeps exactly the records whose id differs from `id`, in their original
   * relative order; every matching record is dropped.
   */
  function Delete(l: TodoList, id: int): (r: TodoList)
    ensures |r| <= |l|
    ensures !HasId(r, id)
    ensures forall t :: t in r <==> t in l && t.id != id
    ensures !HasId(l, id) ==> r == l
  {
    if l == [] then []
    else if l[0].id != id then [l[0]] + Delete(l[1..], id)
    else Delete(l[1..], id)
  }

  /** `a` is `b` with some records removed, the rest in their original order. */
  predicate Subsequence(a: TodoList, b: TodoList)
    decreases |b|
  {
    if a == [] then true
    else if b == [] then false
    else if a[0] == b[0] then Subsequence(a[1..], b[1..])
    else Subsequence(a, b[1..])
  }

  /** Deletion keeps the survivors in their original relative order. */
  lemma {:induction false} DeleteIsSubsequence(l: TodoList, id: int)
    ensures Subsequence(Delete(l, id), l)
  {
    if l != [] {
      DeleteIsSubsequence(l[1..], id);
      if l[0].id != id {
        assert ([l[0]] + Delete(l[1..], id))[1..] == Delete(l[1..], id);
      }
    }
  }

  /** The filter distributes over concatenation. */
  lemma {:induction false} DeleteConcat(a: TodoList, b: TodoList, id: int)
    ensures Delete(a + b, id) == Delete(a, id) + Delete(b, id)
  {
    if a != [] {
      assert (a + b)[0] == a[0];
      assert (a + b)[1..] == a[1..] + b;
      DeleteConcat(a[1..], b, id);
      if a[0].id != id {
        assert Delete(a + b, id) == [a[0]] + (Delete(a[1..], id) + Delete(b, id));
      }
    } else {
      assert a + b == b;
    }
  }

  /** Exactly the matching records are removed: Count of them, no more. */
  lemma {:induction false} DeleteLength(l: TodoList, id: int)
    ensures |Delete(l, id)| == |l| - Count(l, id)
  {
    if l != [] {
      DeleteLength(l[1..], id);
    }
  }

  /** Delete changes the list exactly when some record matches. */
  lemma DeleteUnchangedIff(l: TodoList, id: int)
    ensures Delete(l, id) == l <==> !HasId(l, id)
  {
    DeleteLength(l, id);
  }

  /** With unique ids, deleting a present id removes exactly one record. */
  lemma {:induction false} DeleteUniqueRemovesOne(l: TodoList, id: int)
    requires UniqueIds(l)
    requires HasId(l, id)
    ensures |Delete(l, id)| == |l| - 1
  {
    UniqueCountAtMostOne(l, id);
    DeleteLength(l, id);
  }

  /** Unique ids mean at most one record per id. */
  lemma {:induction false} UniqueCountAtMostOne(l: TodoList, id: int)
    requires UniqueIds(l)
    ensures Count(l, id) <= 1
  {
    if l != [] {
      UniqueCountAtMostOne(l[1..], id);
      if l[0].id == id {
        forall j | 0 <= j < |l[1..]| ensures l[1..][j].id != id {
          assert l[0].id != l[j + 1].id;
        }
      }
    }
  }

  /** Deleting twice is the same as deleting once. */
  lemma DeleteIdempotent(l: TodoList, id: int)
    ensures Delete(Delete(l, id), id) == Delete(l, id)
  {
  }

  /** Deletions of two ids can be applied in either order. */
  lemma {:induction false} DeleteCommutes(l: TodoList, a: int, b: int)
    ensures Delete(Delete(l, a), b) == Delete(Delete(l, b), a)
  {
    if l != [] {
      DeleteCommutes(l[1..], a, b);
      DeleteConcat([l[0]], l[1..], a);
      DeleteConcat([l[0]], l[1..], b);
      DeleteConcat(Delete([l[0]], a), Delete(l[1..], a), b);
      DeleteConcat(Delete([l[0]], b), Delete(l[1..], b), a);
      assert l == [l[0]] + l[1..];
    }
  }

  /** A toggle of an id that is then deleted leaves no trace. */
  lemma {:induction false} DeleteAfterToggle(l: TodoList, id: int)
    ensures Delete(Toggle(l, id), id) == Delete(l, id)
  {
    if l != [] {
      assert Toggle(l, id)[1..] == Toggle(l[1..], id);
      DeleteAfterToggle(l[1..], id);
    }
  }

  /** A record can go in front of a unique list when its id is new there. */
  lemma UniqueCons(t: Todo, rest: TodoList)
    requires UniqueIds(rest) && !HasId(rest, t.id)
    ensures UniqueIds([t] + rest)
  {
    var l := [t] + rest;
    forall i, j | 0 <= i < j < |l| ensures l[i].id != l[j].id {
      assert l[j] == rest[j - 1];
      if i > 0 {
        assert l[i] == rest[i - 1];
      }
    }
  }

  /** Deleting cannot bring an absent id into the list. */
  lemma DeleteKeepsAbsent(l: TodoList, id: int, k: int)
    requires !HasId(l, k)
    ensures !HasId(Delete(l, id), k)
  {
    var r := Delete(l, id);
    forall j | 0 <= j < |r| ensures r[j].id != k {
      assert r[j] in l;
    }
  }

  /** Deletion keeps ids unique. */
  lemma {:induction false} DeleteKeepsUnique(l: TodoList, id: int)
    requires UniqueIds(l)
    ensures UniqueIds(Delete(l, id))
  {
    if l != [] {
      var rest := l[1..];
      assert UniqueIds(rest) by {
        forall i, j | 0 <= i < j < |rest| ensures rest[i].id != rest[j].id {
          assert rest[i] == l[i + 1] && rest[j] == l[j + 1];
        }
      }
      DeleteKeepsUnique(rest, id);
      if l[0].id != id {
        assert !HasId(rest, l[0].id) by {
          forall k | 0 <= k < |rest| ensures rest[k].id != l[0].id {
            assert rest[k] == l[k + 1];
          }
        }
        DeleteKeepsAbsent(rest, id, l[0].id);
        UniqueCons(l[0], Delete(rest, id));
      }
    }
  }
}
