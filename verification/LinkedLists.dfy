/** Pointer lists as pure maps from a node to its neighbour (None for NULL). */
module LinkedLists {
  import opened Options

  type Links<T> = map<T, Option<T>>

  ghost predicate NoDup<T>(s: seq<T>) {
    s == [] || (s[0] !in s[1..] && NoDup(s[1..]))
  }

  ghost function Elems<T>(s: seq<T>): set<T> {
    set o | o in s
  }

  function Head<T>(s: seq<T>): Option<T> {
    if s == [] then None else Some(s[0])
  }

  function Without<T(==)>(s: seq<T>, x: T): seq<T> {
    if s == [] then [] else if s[0] == x then s[1..] else [s[0]] + Without(s[1..], x)
  }

  // ----- What it means to be a list -----

  /** `head` starts a doubly linked list whose nodes are `s`; the node before the first is `before`. */
  ghost predicate DList<T>(before: Option<T>, head: Option<T>, s: seq<T>, next: Links<T>, prev: Links<T>)
    decreases |s|
  {
    && head == Head(s)
    && (s != [] ==>
          && s[0] in next && s[0] in prev
          && prev[s[0]] == before
          && DList(Some(s[0]), next[s[0]], s[1..], next, prev))
  }

  /** A whole doubly linked list, without repeated nodes. */
  ghost predicate Doubly<T>(head: Option<T>, s: seq<T>, next: Links<T>, prev: Links<T>) {
    NoDup(s) && DList(None, head, s, next, prev)
  }

  /** `head` starts a singly linked list whose nodes are `s`. */
  ghost predicate SList<T>(head: Option<T>, s: seq<T>, next: Links<T>)
    decreases |s|
  {
    && head == Head(s)
    && (s != [] ==> s[0] in next && SList(next[s[0]], s[1..], next))
  }

  ghost predicate Singly<T>(head: Option<T>, s: seq<T>, next: Links<T>) {
    NoDup(s) && SList(head, s, next)
  }

  /** `m'` is `m` off the node `x`, except that the entry of `at`, if that is a node, becomes `v`. */
  ghost predicate Redirected<T>(m: Links<T>, m': Links<T>, x: T, at: Option<T>, v: Option<T>) {
    && m'.Keys == m.Keys
    && forall o | o in m && o != x :: m'[o] == if at == Some(o) then v else m[o]
  }

  ghost predicate Misses<T>(s: seq<T>, o: Option<T>) {
    o.Some? ==> o.value !in s
  }

  // ----- Lists under updates -----

  lemma ElemsCons<T>(x: T, s: seq<T>)
    ensures Elems([x] + s) == {x} + Elems(s)
  {
  }

  lemma InElems<T>(s: seq<T>, x: T)
    ensures x in s <==> x in Elems(s)
  {
  }

  lemma {:induction false} WithoutElements<T>(s: seq<T>, x: T)
    requires NoDup(s) && x in s
    ensures NoDup(Without(s, x)) && |Without(s, x)| == |s| - 1
    ensures Elems(Without(s, x)) == Elems(s) - {x}
  {
    var t := s[1..];
    assert s == [s[0]] + t;
    ElemsCons(s[0], t);
    assert s[0] !in Elems(t);
    if s[0] != x {
      WithoutElements(t, x);
      ElemsCons(s[0], Without(t, x));
      assert s[0] !in Elems(Without(t, x));
    }
  }

  lemma {:induction false} NoDupDistinct<T>(s: seq<T>)
    requires NoDup(s)
    ensures forall i, j | 0 <= i < j < |s| :: s[i] != s[j]
    decreases |s|
  {
    if s != [] {
      NoDupDistinct(s[1..]);
      assert forall i | 0 < i < |s| :: s[i] == s[1..][i - 1] && s[1..][i - 1] in s[1..];
    }
  }

  lemma {:induction false} NoDupCard<T>(s: seq<T>)
    requires NoDup(s)
    ensures |Elems(s)| == |s|
  {
    if s != [] {
      NoDupCard(s[1..]);
      assert s == [s[0]] + s[1..];
      ElemsCons(s[0], s[1..]);
    }
  }

  /** Writes to nodes outside a list leave it alone. */
  lemma {:induction false} DListFrame<T>(before: Option<T>, head: Option<T>, s: seq<T>,
                                         next: Links<T>, prev: Links<T>, next': Links<T>, prev': Links<T>, x: T,
                                         a: Option<T>, v: Option<T>, b: Option<T>, w: Option<T>)
    requires DList(before, head, s, next, prev) && x !in s && Misses(s, a) && Misses(s, b)
    requires Redirected(next, next', x, a, v) && Redirected(prev, prev', x, b, w)
    ensures DList(before, head, s, next', prev')
    decreases |s|
  {
    if s != [] {
      DListFrame(Some(s[0]), next[s[0]], s[1..], next, prev, next', prev', x, a, v, b, w);
    }
  }

  lemma DoublyFrame<T>(head: Option<T>, s: seq<T>, next: Links<T>, prev: Links<T>,
                       next': Links<T>, prev': Links<T>, x: T,
                       a: Option<T>, v: Option<T>, b: Option<T>, w: Option<T>)
    requires Doubly(head, s, next, prev) && x !in s && Misses(s, a) && Misses(s, b)
    requires Redirected(next, next', x, a, v) && Redirected(prev, prev', x, b, w)
    ensures Doubly(head, s, next', prev')
  {
    DListFrame(None, head, s, next, prev, next', prev', x, a, v, b, w);
  }

  /** The predecessor of a node other than the first is in the list; its successor is never the first. */
  lemma {:induction false} Neighbours<T>(before: Option<T>, head: Option<T>, s: seq<T>,
                                         next: Links<T>, prev: Links<T>, x: T)
    requires DList(before, head, s, next, prev) && NoDup(s) && x in s
    ensures x in next && x in prev
    ensures s[0] == x ==> prev[x] == before
    ensures s[0] != x ==> prev[x].Some? && prev[x].value in s && prev[x].value != x
    ensures s[0] != x ==> (prev[x] == Some(s[0]) <==> s[1] == x)
    ensures next[x].Some? ==> next[x].value in s && next[x].value != s[0]
    decreases |s|
  {
    if s[0] != x {
      Neighbours(Some(s[0]), next[s[0]], s[1..], next, prev, x);
    }
  }

  lemma DoublyFacts<T>(head: Option<T>, s: seq<T>, next: Links<T>, prev: Links<T>)
    requires Doubly(head, s, next, prev)
    ensures head == Head(s)
  {
  }

  lemma DoublyNode<T>(head: Option<T>, s: seq<T>, next: Links<T>, prev: Links<T>, x: T)
    requires Doubly(head, s, next, prev) && x in s
    ensures x in next && x in prev && head.Some?
    ensures prev[x].None? <==> head == Some(x)
    ensures prev[x].Some? ==> prev[x].value in s
    ensures next[x].Some? ==> next[x].value in s
  {
    Neighbours(None, head, s, next, prev, x);
  }

  /** Taking a node out of a doubly linked list by joining its neighbours to each other. */
  lemma {:induction false} Unlink<T>(before: Option<T>, head: Option<T>, s: seq<T>, next: Links<T>, prev: Links<T>,
                                     x: T, next': Links<T>, prev': Links<T>)
    requires DList(before, head, s, next, prev) && NoDup(s) && x in s && Misses(s, before)
    requires x in next && x in prev
    requires Redirected(next, next', x, prev[x], next[x])
    requires Redirected(prev, prev', x, next[x], prev[x])
    ensures DList(before, if s[0] == x then next[x] else head, Without(s, x), next', prev')
    decreases |s|
  {
    var t := s[1..];
    if s[0] == x {
      if t != [] {
        DListFrame(Some(t[0]), next[t[0]], t[1..], next, prev, next', prev', x, prev[x], next[x], next[x], prev[x]);
      }
    } else {
      Unlink(Some(s[0]), next[s[0]], t, next, prev, x, next', prev');
      Neighbours(before, head, s, next, prev, x);
    }
  }

  lemma DoublyUnlink<T>(head: Option<T>, s: seq<T>, next: Links<T>, prev: Links<T>,
                        x: T, next': Links<T>, prev': Links<T>)
    requires Doubly(head, s, next, prev) && x in s
    requires x in next && x in prev
    requires Redirected(next, next', x, prev[x], next[x])
    requires Redirected(prev, prev', x, next[x], prev[x])
    ensures Doubly(if prev[x].None? then next[x] else head, Without(s, x), next', prev')
    ensures |Without(s, x)| == |s| - 1 && Elems(Without(s, x)) == Elems(s) - {x}
  {
    Unlink(None, head, s, next, prev, x, next', prev');
    Neighbours(None, head, s, next, prev, x);
    WithoutElements(s, x);
  }

  /** Putting a new node in front of a doubly linked list. */
  lemma DoublyPush<T>(head: Option<T>, s: seq<T>, next: Links<T>, prev: Links<T>,
                      x: T, next': Links<T>, prev': Links<T>)
    requires Doubly(head, s, next, prev) && x !in s
    requires Redirected(next, next', x, None, None) && x in next' && next'[x] == head
    requires Redirected(prev, prev', x, head, Some(x)) && x in prev' && prev'[x] == None
    ensures Doubly(Some(x), [x] + s, next', prev')
    ensures Elems([x] + s) == {x} + Elems(s)
  {
    var xs := [x] + s;
    assert xs[1..] == s;
    if s != [] {
      DListFrame(Some(s[0]), next[s[0]], s[1..], next, prev, next', prev', x, None, None, head, Some(x));
    }
  }

  /** The node after position `i`. */
  lemma {:induction false} DListAt<T>(before: Option<T>, head: Option<T>, s: seq<T>,
                                      next: Links<T>, prev: Links<T>, i: nat)
    requires DList(before, head, s, next, prev) && i < |s|
    ensures s[i] in next && next[s[i]] == Head(s[i + 1..])
    decreases i
  {
    if i > 0 {
      DListAt(Some(s[0]), next[s[0]], s[1..], next, prev, i - 1);
    }
  }

  lemma DoublyAt<T>(head: Option<T>, s: seq<T>, next: Links<T>, prev: Links<T>, i: nat)
    requires Doubly(head, s, next, prev) && i < |s|
    ensures s[i] in next && next[s[i]] == Head(s[i + 1..])
  {
    DListAt(None, head, s, next, prev, i);
  }

  /** A list only depends on the links of its nodes. */
  lemma {:induction false} DListAgree<T>(before: Option<T>, head: Option<T>, s: seq<T>,
                                         next: Links<T>, prev: Links<T>, next': Links<T>, prev': Links<T>)
    requires DList(before, head, s, next, prev)
    requires forall i | 0 <= i < |s| && s[i] in next :: s[i] in next' && next'[s[i]] == next[s[i]]
    requires forall i | 0 <= i < |s| && s[i] in prev :: s[i] in prev' && prev'[s[i]] == prev[s[i]]
    ensures DList(before, head, s, next', prev')
    decreases |s|
  {
    if s != [] {
      DListAgree(Some(s[0]), next[s[0]], s[1..], next, prev, next', prev');
    }
  }

  lemma DoublyAgree<T>(head: Option<T>, s: seq<T>, next: Links<T>, prev: Links<T>, next': Links<T>, prev': Links<T>)
    requires Doubly(head, s, next, prev)
    requires forall i | 0 <= i < |s| && s[i] in next :: s[i] in next' && next'[s[i]] == next[s[i]]
    requires forall i | 0 <= i < |s| && s[i] in prev :: s[i] in prev' && prev'[s[i]] == prev[s[i]]
    ensures Doubly(head, s, next', prev')
  {
    DListAgree(None, head, s, next, prev, next', prev');
  }

  // ----- Singly linked lists -----

  lemma {:induction false} SListAgree<T>(head: Option<T>, s: seq<T>, next: Links<T>, next': Links<T>)
    requires SList(head, s, next)
    requires forall i | 0 <= i < |s| && s[i] in next :: s[i] in next' && next'[s[i]] == next[s[i]]
    ensures SList(head, s, next')
    decreases |s|
  {
    if s != [] {
      SListAgree(next[s[0]], s[1..], next, next');
    }
  }

  lemma SinglyAgree<T>(head: Option<T>, s: seq<T>, next: Links<T>, next': Links<T>)
    requires Singly(head, s, next)
    requires forall i | 0 <= i < |s| && s[i] in next :: s[i] in next' && next'[s[i]] == next[s[i]]
    ensures Singly(head, s, next')
  {
    SListAgree(head, s, next, next');
  }

  lemma {:induction false} SListAt<T>(head: Option<T>, s: seq<T>, next: Links<T>, i: nat)
    requires SList(head, s, next) && i < |s|
    ensures s[i] in next && next[s[i]] == Head(s[i + 1..])
    decreases i
  {
    if i > 0 {
      SListAt(next[s[0]], s[1..], next, i - 1);
    }
  }

  lemma SinglyAt<T>(head: Option<T>, s: seq<T>, next: Links<T>, i: nat)
    requires Singly(head, s, next) && i < |s|
    ensures head == Head(s) && s[i] in next && next[s[i]] == Head(s[i + 1..])
  {
    SListAt(head, s, next, i);
  }

  lemma SinglyHead<T>(head: Option<T>, s: seq<T>, next: Links<T>)
    requires Singly(head, s, next)
    ensures head == Head(s)
  {
  }

  lemma SinglyPush<T>(head: Option<T>, s: seq<T>, next: Links<T>, x: T, next': Links<T>)
    requires Singly(head, s, next) && x !in s && x in next' && next'[x] == head
    requires forall i | 0 <= i < |s| && s[i] in next :: s[i] in next' && next'[s[i]] == next[s[i]]
    ensures Singly(Some(x), [x] + s, next')
  {
    assert ([x] + s)[1..] == s;
    SListAgree(head, s, next, next');
  }

  lemma {:induction false} NoDupAt<T>(s: seq<T>, i: nat, j: nat)
    requires NoDup(s) && i < j < |s|
    ensures s[i] != s[j]
    decreases i
  {
    if i > 0 {
      NoDupAt(s[1..], i - 1, j - 1);
    } else {
      assert s[j] == s[1..][j - 1];
    }
  }

  lemma SinglyDistinct<T>(head: Option<T>, s: seq<T>, next: Links<T>, i: nat, j: nat)
    requires Singly(head, s, next) && i < j < |s|
    ensures s[i] != s[j]
  {
    NoDupAt(s, i, j);
  }

  /** Deleting the node at position `i` by redirecting its predecessor, if it has one. */
  lemma {:induction false} SListDelete<T>(head: Option<T>, s: seq<T>, next: Links<T>, i: nat, next': Links<T>)
    requires SList(head, s, next) && NoDup(s) && i < |s| && s[i] in next
    requires Redirected(next, next', s[i], if i == 0 then None else Some(s[i - 1]), next[s[i]])
    ensures SList(if i == 0 then next[s[0]] else head, s[..i] + s[i + 1..], next')
    ensures NoDup(s[..i] + s[i + 1..])
    decreases i
  {
    var t := s[1..];
    if i == 0 {
      assert s[..0] + s[1..] == t;
      SListAgree(next[s[0]], t, next, next');
    } else {
      var r := s[..i] + s[i + 1..];
      assert t[i - 1] == s[i] && r[1..] == t[..i - 1] + t[i..];
      NoDupAt(s, 0, i);
      if i == 1 {
        SListAt(next[s[0]], t, next, 0);
        assert r[1..] == t[1..];
        SListAgree(next[t[0]], t[1..], next, next');
      } else {
        NoDupAt(s, 0, i - 1);
        SListDelete(next[s[0]], t, next, i - 1, next');
      }
    }
  }

  lemma SinglyDelete<T>(head: Option<T>, s: seq<T>, next: Links<T>, i: nat, next': Links<T>)
    requires Singly(head, s, next) && i < |s| && s[i] in next
    requires Redirected(next, next', s[i], if i == 0 then None else Some(s[i - 1]), next[s[i]])
    ensures Singly(if i == 0 then next[s[0]] else head, s[..i] + s[i + 1..], next')
    ensures Elems(s[..i] + s[i + 1..]) == Elems(s) - {s[i]}
  {
    SListDelete(head, s, next, i, next');
    var r := s[..i] + s[i + 1..];
    forall k | 0 <= k < |r| ensures r[k] != s[i] {
      if k < i { NoDupAt(s, k, i); } else { NoDupAt(s, i, k + 1); }
    }
    forall k | 0 <= k < |s| && k != i ensures s[k] in r {
      assert s[k] == r[if k < i then k else k - 1];
    }
  }
}
