/**
 * The vnode reference protocol: every live vnode carries a positive count of
 * owned references; VOP_INCREF adds one, VOP_DECREF removes one and destroys
 * the vnode when the count reaches zero.  A vnode that is absent from the map
 * has count zero, that is, it is not live.
 */
module VnodeRefs {
  import opened Wrappers

  type VnodeId = nat

  type Pos = n: nat | n > 0 witness 1

  /** The reference counts of all live vnodes. */
  type RefMap = map<VnodeId, Pos>

  function Count(m: RefMap, v: VnodeId): nat
  {
    if v in m then m[v] else 0
  }

  /** VOP_INCREF: one more owned reference to v (a vnode at count zero is brought to life). */
  function Bump(m: RefMap, v: VnodeId): (m': RefMap)
    ensures Count(m', v) == Count(m, v) + 1
    ensures forall u :: u != v ==> Count(m', u) == Count(m, u)
  {
    m[v := Count(m, v) + 1]
  }

  /** VOP_DECREF: one owned reference to v is given up; v is destroyed when it was the last. */
  function Drop(m: RefMap, v: VnodeId): (m': RefMap)
    requires Count(m, v) > 0
    ensures Count(m', v) == Count(m, v) - 1
    ensures v in m' <==> Count(m, v) > 1
    ensures forall u :: u != v ==> Count(m', u) == Count(m, u)
  {
    if m[v] == 1 then m - {v} else m[v := m[v] - 1]
  }

  /** The counts after an accessor returned r: one more on the vnode returned, none on an error. */
  function Acquire<E>(m: RefMap, r: Result<VnodeId, E>): (m': RefMap)
    ensures r.Ok? ==> Count(m', r.value) == Count(m, r.value) + 1
    ensures forall u :: (r.Err? || u != r.value) ==> Count(m', u) == Count(m, u)
  {
    if r.Ok? then Bump(m, r.value) else m
  }

  /** Releases the reference held in an optional slot, if the slot is filled. */
  function DropIfSome(m: RefMap, o: Option<VnodeId>): (m': RefMap)
    requires o.Some? ==> Count(m, o.value) > 0
    ensures o.Some? ==> Count(m', o.value) == Count(m, o.value) - 1
    ensures forall u :: (o.None? || u != o.value) ==> Count(m', u) == Count(m, u)
  {
    if o.Some? then Drop(m, o.value) else m
  }

  /** A reference map is determined by its counts. */
  lemma CountsDetermineMap(m1: RefMap, m2: RefMap)
    requires forall v :: Count(m1, v) == Count(m2, v)
    ensures m1 == m2
  {
    assert m1.Keys == m2.Keys by {
      forall v | v in m1 ensures v in m2 { assert Count(m1, v) > 0; }
      forall v | v in m2 ensures v in m1 { assert Count(m2, v) > 0; }
    }
    forall v | v in m1 ensures m1[v] == m2[v] { assert Count(m1, v) == Count(m2, v); }
  }

  /**
   * Taking a temporary reference to a and releasing it again, with a reference
   * to b acquired in between, leaves exactly the reference to b behind.
   */
  lemma TemporaryReferenceCancels(m: RefMap, a: VnodeId, b: VnodeId)
    ensures Count(Bump(Bump(m, a), b), a) > 0
    ensures Drop(Bump(Bump(m, a), b), a) == Bump(m, b)
  {
    var m' := Drop(Bump(Bump(m, a), b), a);
    forall v ensures Count(m', v) == Count(Bump(m, b), v) {
    }
    CountsDetermineMap(m', Bump(m, b));
  }

  /** The same, when the reference acquired in between may be missing (an error result). */
  lemma TemporaryReferenceCancelsOnResult<E>(m: RefMap, a: VnodeId, r: Result<VnodeId, E>)
    ensures Count(Acquire(Bump(m, a), r), a) > 0
    ensures Drop(Acquire(Bump(m, a), r), a) == Acquire(m, r)
  {
    if r.Ok? {
      TemporaryReferenceCancels(m, a, r.value);
    } else {
      var m' := Drop(Bump(m, a), a);
      forall v ensures Count(m', v) == Count(m, v) {
      }
      CountsDetermineMap(m', m);
    }
  }
}
