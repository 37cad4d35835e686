/**
 The container/heap package over a growing slice: `up` and `down` as the Go library writes
 them, once as functions on the slice's value and once as the loops that run on the slice.
 The element with the least `rank` is served first.
 */
module GoHeap {
  import opened GoInt
  import opened Swaps

  // ---------- Order and indices ----------

  /** The root and the index before the slice are their own parents. */
  function Parent(j: int): (i: int)
    ensures j > 0 ==> 0 <= i < j && (j == 2 * i + 1 || j == 2 * i + 2)
    ensures -1 <= j <= 0 ==> i == j
  {
    Div(j - 1, 2)
  }

  ghost predicate IsHeap<T>(rank: T -> int, s: seq<T>) {
    forall j :: 0 < j < |s| ==> rank(s[Parent(j)]) <= rank(s[j])
  }

  // ---------- up and down ----------

  function Up<T>(rank: T -> int, s: seq<T>, j: int): (r: seq<T>)
    requires -1 <= j < |s|
    ensures |r| == |s|
    decreases j
  {
    var i := Parent(j);
    if i == j || rank(s[j]) >= rank(s[i]) then s else Up(rank, Swap(s, i, j), i)
  }

  /** The child of `i` that `down` compares with: the smaller one, the left one on a tie. */
  function Child<T>(rank: T -> int, s: seq<T>, i: nat, n: nat): (j: nat)
    requires 2 * i + 1 < n <= |s|
    ensures (j == 2 * i + 1 || j == 2 * i + 2) && j < n
  {
    var j1 := 2 * i + 1;
    if j1 + 1 < n && rank(s[j1 + 1]) < rank(s[j1]) then j1 + 1 else j1
  }

  function Down<T>(rank: T -> int, s: seq<T>, i: nat, n: nat): (r: seq<T>)
    requires n <= |s|
    ensures |r| == |s|
    decreases n - i
  {
    if 2 * i + 1 >= n then s else
    var j := Child(rank, s, i, n);
    if rank(s[j]) >= rank(s[i]) then s else Down(rank, Swap(s, i, j), j, n)
  }

  /** heap.Push once the element is appended; the append itself is up to the heap's own Push. */
  function Pushed<T>(rank: T -> int, s: seq<T>): seq<T> { Up(rank, s, |s| - 1) }

  /** The slice before heap.Pop calls the heap's own Pop: its last element is the one served. */
  function Popping<T>(rank: T -> int, s: seq<T>): (r: seq<T>)
    requires s != []
    ensures |r| == |s|
  {
    Down(rank, Swap(s, 0, |s| - 1), 0, |s| - 1)
  }

  // ---------- The loops ----------

  class Slice<T> {
    const rank: T -> int
    var s: seq<T>

    constructor (rank: T -> int)
      ensures s == [] && this.rank == rank
    {
      this.rank, s := rank, [];
    }

    method SwapAt(i: nat, j: nat)
      requires i < |s| && j < |s|
      modifies this
      ensures s == Swap(old(s), i, j)
    {
      s := s[i := s[j]][j := s[i]];
    }

    method SiftUp(j0: int)
      requires -1 <= j0 < |s|
      modifies this
      ensures s == Up(rank, old(s), j0)
    {
      var j := j0;
      while true
        invariant -1 <= j < |s| == |old(s)|
        invariant Up(rank, s, j) == Up(rank, old(s), j0)
        decreases j
      {
        var i := Parent(j);
        if i == j || !(rank(s[j]) < rank(s[i])) {
          break;
        }
        SwapAt(i, j);
        j := i;
      }
    }

    method SiftDown(i0: nat, n: nat)
      requires n <= |s|
      modifies this
      ensures s == Down(rank, old(s), i0, n)
    {
      var i := i0;
      while true
        invariant |s| == |old(s)|
        invariant Down(rank, s, i, n) == Down(rank, old(s), i0, n)
        decreases n - i
      {
        var j1 := 2 * i + 1;
        if j1 >= n {
          break;
        }
        var j := j1;
        var j2 := j1 + 1;
        if j2 < n && rank(s[j2]) < rank(s[j1]) {
          j := j2;
        }
        if !(rank(s[j]) < rank(s[i])) {
          break;
        }
        SwapAt(i, j);
        i := j;
      }
    }
  }

  // ---------- Sifting restores heap order ----------

  /** Heap order everywhere except between `j` and its parent. */
  ghost predicate HeapBut<T>(rank: T -> int, s: seq<T>, j: nat) {
    && (forall k :: 0 < k < |s| && k != j ==> rank(s[Parent(k)]) <= rank(s[k]))
    && (forall k :: 0 < k < |s| && 0 < j < |s| && Parent(k) == j ==> rank(s[Parent(j)]) <= rank(s[k]))
  }

  lemma {:induction false} UpStep<T>(rank: T -> int, s: seq<T>, j: nat)
    requires 0 < j < |s| && HeapBut(rank, s, j) && rank(s[j]) < rank(s[Parent(j)])
    ensures HeapBut(rank, Swap(s, Parent(j), j), Parent(j))
  {
  }

  lemma {:induction false} UpRestores<T>(rank: T -> int, s: seq<T>, j: nat)
    requires j < |s| && HeapBut(rank, s, j)
    ensures IsHeap(rank, Up(rank, s, j)) && multiset(Up(rank, s, j)) == multiset(s)
    decreases j
  {
    var i := Parent(j);
    if i != j && rank(s[j]) < rank(s[i]) {
      UpStep(rank, s, j);
      SwapPermutes(s, i, j);
      UpRestores(rank, Swap(s, i, j), i);
    }
  }

  /** Heap order in s[..n] except between `i` and its children. */
  ghost predicate HeapUnder<T>(rank: T -> int, s: seq<T>, i: nat, n: nat)
    requires n <= |s|
  {
    && (forall k :: 0 < k < n && Parent(k) != i ==> rank(s[Parent(k)]) <= rank(s[k]))
    && (forall k :: 0 < k < n && 0 < i < n && Parent(k) == i ==> rank(s[Parent(i)]) <= rank(s[k]))
  }

  lemma {:induction false} DownStep<T>(rank: T -> int, s: seq<T>, i: nat, n: nat)
    requires 2 * i + 1 < n <= |s| && HeapUnder(rank, s, i, n)
    requires rank(s[Child(rank, s, i, n)]) < rank(s[i])
    ensures var j := Child(rank, s, i, n); HeapUnder(rank, Swap(s, i, j), j, n)
  {
    var j := Child(rank, s, i, n);
    var r := Swap(s, i, j);
    forall k | 0 < k < n && Parent(k) != j ensures rank(r[Parent(k)]) <= rank(r[k]) {
      if k != i && k != j && Parent(k) != i { assert r[k] == s[k] && r[Parent(k)] == s[Parent(k)]; }
    }
  }

  lemma {:induction false} DownDone<T>(rank: T -> int, s: seq<T>, i: nat, n: nat)
    requires n <= |s| && HeapUnder(rank, s, i, n)
    requires 2 * i + 1 < n ==> rank(s[Child(rank, s, i, n)]) >= rank(s[i])
    ensures IsHeap(rank, s[..n])
  {
  }

  lemma {:induction false} DownRestores<T>(rank: T -> int, s: seq<T>, i: nat, n: nat)
    requires n <= |s| && HeapUnder(rank, s, i, n)
    ensures var r := Down(rank, s, i, n);
            && IsHeap(rank, r[..n]) && multiset(r) == multiset(s) && r[n..] == s[n..]
    decreases n - i
  {
    if 2 * i + 1 < n && rank(s[Child(rank, s, i, n)]) < rank(s[i]) {
      var j := Child(rank, s, i, n);
      DownStep(rank, s, i, n);
      SwapPermutes(s, i, j);
      DownRestores(rank, Swap(s, i, j), j, n);
      assert Swap(s, i, j)[n..] == s[n..];
    } else {
      DownDone(rank, s, i, n);
    }
  }

  lemma {:induction false} DownLeaves<T>(rank: T -> int, s: seq<T>, i: nat, n: nat, k: nat)
    requires k < i && k < |s| && n <= |s|
    ensures Down(rank, s, i, n)[k] == s[k]
    decreases n - i
  {
    if 2 * i + 1 < n {
      var j := Child(rank, s, i, n);
      if rank(s[j]) < rank(s[i]) { DownLeaves(rank, Swap(s, i, j), j, n, k); }
    }
  }

  /** Of two children that rank the same the left one takes the parent's place, if it ranks below the parent. */
  lemma {:induction false} TiesGoLeft<T>(rank: T -> int, s: seq<T>, i: nat, n: nat)
    requires 2 * i + 2 < n <= |s| && rank(s[2 * i + 1]) == rank(s[2 * i + 2])
    ensures Down(rank, s, i, n)[i] == if rank(s[2 * i + 1]) < rank(s[i]) then s[2 * i + 1] else s[i]
  {
    var j := 2 * i + 1;
    if rank(s[j]) < rank(s[i]) { DownLeaves(rank, Swap(s, i, j), j, n, i); }
  }

  // ---------- Push and Pop ----------

  lemma {:induction false} PushKeepsHeap<T>(rank: T -> int, s: seq<T>, x: T)
    requires IsHeap(rank, s)
    ensures IsHeap(rank, Pushed(rank, s + [x]))
    ensures multiset(Pushed(rank, s + [x])) == multiset(s) + multiset{x}
  {
    UpRestores(rank, s + [x], |s|);
  }

  /** heap.Push around a Push that dropped its element: nothing moves, on an empty slice too. */
  lemma {:induction false} DroppedPushKeepsSlice<T>(rank: T -> int, s: seq<T>)
    requires IsHeap(rank, s)
    ensures Pushed(rank, s) == s
  {
  }

  lemma {:induction false} RootIsLeast<T>(rank: T -> int, s: seq<T>, j: nat)
    requires IsHeap(rank, s) && j < |s|
    ensures rank(s[0]) <= rank(s[j])
    decreases j
  {
    if j > 0 { RootIsLeast(rank, s, Parent(j)); }
  }

  /** heap.Pop serves an element of least rank and leaves a heap of the others. */
  lemma {:induction false} PopServesLeast<T>(rank: T -> int, s: seq<T>)
    requires IsHeap(rank, s) && s != []
    ensures var n := |s| - 1;
            var r := Popping(rank, s);
            && r[n] == s[0] && IsHeap(rank, r[..n])
            && multiset(s) == multiset(r[..n]) + multiset{r[n]}
            && forall x :: x in s ==> rank(r[n]) <= rank(x)
  {
    var n := |s| - 1;
    var s1, r := Swap(s, 0, n), Popping(rank, s);
    SwapPermutes(s, 0, n);
    assert HeapUnder(rank, s1, 0, n);
    DownRestores(rank, s1, 0, n);
    assert r[n] == r[n..][0] == s1[n..][0] == s[0];
    assert r == r[..n] + [r[n]];
    forall x | x in s ensures rank(s[0]) <= rank(x) {
      var j :| 0 <= j < |s| && s[j] == x;
      RootIsLeast(rank, s, j);
    }
  }
}
