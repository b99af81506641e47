/** Queries over a table kept in insertion order: the rows an index lookup
    on a parent key returns, the rows left after deleting them, and the sums
    the invoice totals are made of. */
module Tables {
  import opened Wrappers
  import opened Schema

  /** The rows whose key is `id`, in table order: what
      `withIndex(..., q => q.eq(field, id)).collect()` returns. */
  function Children<T>(rows: seq<T>, parent: T -> Id, id: Id): seq<T> {
    if rows == [] then []
    else if parent(rows[|rows| - 1]) == id then Children(rows[..|rows| - 1], parent, id) + [rows[|rows| - 1]]
    else Children(rows[..|rows| - 1], parent, id)
  }

  /** The rows whose key is not `id`, in table order: the table after each
      row with key `id` has been deleted. */
  function Without<T>(rows: seq<T>, parent: T -> Id, id: Id): seq<T> {
    if rows == [] then []
    else if parent(rows[|rows| - 1]) != id then Without(rows[..|rows| - 1], parent, id) + [rows[|rows| - 1]]
    else Without(rows[..|rows| - 1], parent, id)
  }

  /** Exactly the rows with key `id` are selected, each as often as it
      occurs, and the selection keeps their order. */
  lemma {:induction false} ChildrenSpec<T>(rows: seq<T>, parent: T -> Id, id: Id)
    ensures forall x :: x in Children(rows, parent, id) <==> x in rows && parent(x) == id
    ensures |Children(rows, parent, id)| <= |rows|
    decreases |rows|
  {
    if rows != [] {
      ChildrenSpec(rows[..|rows| - 1], parent, id);
      assert rows == rows[..|rows| - 1] + [rows[|rows| - 1]];
    }
  }

  /** Deleting keeps exactly the rows with another key. */
  lemma {:induction false} WithoutSpec<T>(rows: seq<T>, parent: T -> Id, id: Id)
    ensures forall x :: x in Without(rows, parent, id) ==> x in rows && parent(x) != id
    ensures forall x :: x in rows && parent(x) != id ==> x in Without(rows, parent, id)
    ensures |Without(rows, parent, id)| <= |rows|
    decreases |rows|
  {
    if rows != [] {
      WithoutSpec(rows[..|rows| - 1], parent, id);
      assert rows == rows[..|rows| - 1] + [rows[|rows| - 1]];
    }
  }

  /** Nothing is lost: the deleted rows and the kept rows make up the table. */
  lemma {:induction false} ChildrenWithoutPartition<T>(rows: seq<T>, parent: T -> Id, id: Id)
    ensures multiset(Children(rows, parent, id)) + multiset(Without(rows, parent, id)) == multiset(rows)
    decreases |rows|
  {
    if rows != [] {
      ChildrenWithoutPartition(rows[..|rows| - 1], parent, id);
      assert rows == rows[..|rows| - 1] + [rows[|rows| - 1]];
    }
  }

  lemma {:induction false} ChildrenAppend<T>(a: seq<T>, b: seq<T>, parent: T -> Id, id: Id)
    ensures Children(a + b, parent, id) == Children(a, parent, id) + Children(b, parent, id)
    decreases |b|
  {
    if b != [] {
      ChildrenAppend(a, b[..|b| - 1], parent, id);
      assert (a + b)[..|a + b| - 1] == a + b[..|b| - 1];
    } else {
      assert a + b == a;
    }
  }

  lemma {:induction false} WithoutAppend<T>(a: seq<T>, b: seq<T>, parent: T -> Id, id: Id)
    ensures Without(a + b, parent, id) == Without(a, parent, id) + Without(b, parent, id)
    decreases |b|
  {
    if b != [] {
      WithoutAppend(a, b[..|b| - 1], parent, id);
      assert (a + b)[..|a + b| - 1] == a + b[..|b| - 1];
    } else {
      assert a + b == a;
    }
  }

  /** A key no row carries selects nothing. */
  lemma {:induction false} ChildrenOfAbsent<T>(rows: seq<T>, parent: T -> Id, id: Id)
    requires forall k :: 0 <= k < |rows| ==> parent(rows[k]) != id
    ensures Children(rows, parent, id) == []
    ensures Without(rows, parent, id) == rows
    decreases |rows|
  {
    if rows != [] {
      ChildrenOfAbsent(rows[..|rows| - 1], parent, id);
      assert rows == rows[..|rows| - 1] + [rows[|rows| - 1]];
    }
  }

  /** Rows that all carry the key are all selected. */
  lemma {:induction false} ChildrenOfAll<T>(rows: seq<T>, parent: T -> Id, id: Id)
    requires forall k :: 0 <= k < |rows| ==> parent(rows[k]) == id
    ensures Children(rows, parent, id) == rows
    ensures Without(rows, parent, id) == []
    decreases |rows|
  {
    if rows != [] {
      ChildrenOfAll(rows[..|rows| - 1], parent, id);
      assert rows == rows[..|rows| - 1] + [rows[|rows| - 1]];
    }
  }

  /** Deleting the rows of one key leaves every other key's rows as they were. */
  lemma {:induction false} ChildrenAfterDelete<T>(rows: seq<T>, parent: T -> Id, gone: Id, id: Id)
    ensures Children(Without(rows, parent, gone), parent, id)
            == if id == gone then [] else Children(rows, parent, id)
    decreases |rows|
  {
    if rows != [] {
      var init := rows[..|rows| - 1];
      ChildrenAfterDelete(init, parent, gone, id);
      if parent(rows[|rows| - 1]) != gone {
        ChildrenAppend(Without(init, parent, gone), [rows[|rows| - 1]], parent, id);
      }
    }
  }

  /** A lookup by a key (`ctx.db.get(id)`, or `.unique()` on an index):
      the position of the first row whose key is `id`, if any. */
  function Find<T, K(==)>(rows: seq<T>, key: T -> K, id: K): (r: Option<nat>)
    ensures r.Some? ==> r.value < |rows| && key(rows[r.value]) == id
    ensures r.Some? ==> forall k :: 0 <= k < r.value ==> key(rows[k]) != id
    ensures r.None? ==> forall k :: 0 <= k < |rows| ==> key(rows[k]) != id
  {
    if rows == [] then None
    else if key(rows[0]) == id then Some(0)
    else match Find(rows[1..], key, id)
      case None => None
      case Some(k) => Some(k + 1)
  }

  /** The first row with key `id`, if any. */
  function Lookup<T, K(==)>(rows: seq<T>, key: T -> K, id: K): (r: Option<T>)
    ensures r.Some? ==> r.value in rows && key(r.value) == id
    ensures r.None? <==> forall x :: x in rows ==> key(x) != id
  {
    match Find(rows, key, id)
    case None => None
    case Some(k) => Some(rows[k])
  }

  /** The first row with key `id` is at `k`. */
  lemma FindAt<T, K>(rows: seq<T>, key: T -> K, id: K, k: nat)
    requires k < |rows| && key(rows[k]) == id
    requires forall j :: 0 <= j < k ==> key(rows[j]) != id
    ensures Find(rows, key, id) == Some(k)
  {
  }

  /** A lookup by a key that no changed or added row carries finds the same
      row as before. */
  lemma {:induction false} FindElsewhere<T, K>(rows: seq<T>, rows1: seq<T>, key: T -> K, id: K)
    requires |rows| <= |rows1|
    requires forall j :: 0 <= j < |rows| ==> rows1[j] == rows[j] || (key(rows[j]) != id && key(rows1[j]) != id)
    requires forall j :: |rows| <= j < |rows1| ==> key(rows1[j]) != id
    ensures Find(rows1, key, id) == Find(rows, key, id)
    ensures Lookup(rows1, key, id) == Lookup(rows, key, id)
  {
    var r := Find(rows, key, id);
    if r.Some? {
      FindAt(rows1, key, id, r.value);
    }
  }

  /** The sum of the line totals. */
  function LineSum(lines: seq<LineItem>): real {
    if lines == [] then 0.0 else LineSum(lines[..|lines| - 1]) + lines[|lines| - 1].total
  }

  /** The sum of the claim amounts. */
  function ClaimSum(claims: seq<Claim>): real {
    if claims == [] then 0.0 else ClaimSum(claims[..|claims| - 1]) + claims[|claims| - 1].amount
  }

  lemma {:induction false} LineSumAppend(a: seq<LineItem>, b: seq<LineItem>)
    ensures LineSum(a + b) == LineSum(a) + LineSum(b)
    decreases |b|
  {
    if b != [] {
      LineSumAppend(a, b[..|b| - 1]);
      assert (a + b)[..|a + b| - 1] == a + b[..|b| - 1];
    } else {
      assert a + b == a;
    }
  }

  lemma {:induction false} ClaimSumAppend(a: seq<Claim>, b: seq<Claim>)
    ensures ClaimSum(a + b) == ClaimSum(a) + ClaimSum(b)
    decreases |b|
  {
    if b != [] {
      ClaimSumAppend(a, b[..|b| - 1]);
      assert (a + b)[..|a + b| - 1] == a + b[..|b| - 1];
    } else {
      assert a + b == a;
    }
  }
}
