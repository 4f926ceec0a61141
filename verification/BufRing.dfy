/**
 The doubly linked list of buffers in bio.c: prev and next links through the
 buffers and a list head.
 */
module BufRing {
  import opened Params

  const HEAD: int := NBUF     // node number of bcache.head

  ghost function After(k: int): (r: int) { if k == NBUF then 0 else k + 1 }
  ghost function Before(k: int): (r: int) { if k == 0 then NBUF else k - 1 }

  // place[x] is the place of node x in the list, the head being at 0; every node has a place of its own.
  ghost predicate Permutation(place: seq<int>) {
    && |place| == NBUF + 1 && place[HEAD] == 0
    && (forall x :: 0 <= x <= NBUF ==> 0 <= place[x] <= NBUF)
    && (forall x, y :: 0 <= x <= NBUF && 0 <= y <= NBUF && place[x] == place[y] ==> x == y)
  }

  // Each link leads to the node one place on, around the head.
  ghost predicate LinksTo(place: seq<int>, next: seq<int>)
    requires |place| == NBUF + 1
  {
    && |next| == NBUF + 1
    && forall x :: 0 <= x <= NBUF ==> 0 <= next[x] <= NBUF && place[next[x]] == After(place[x])
  }

  ghost predicate LinksBack(place: seq<int>, prev: seq<int>)
    requires |place| == NBUF + 1
  {
    && |prev| == NBUF + 1
    && forall x :: 0 <= x <= NBUF ==> 0 <= prev[x] <= NBUF && place[prev[x]] == Before(place[x])
  }

  ghost predicate RingOk(place: seq<int>, prev: seq<int>, next: seq<int>) {
    Permutation(place) && LinksTo(place, next) && LinksBack(place, prev)
  }

  // Node b goes from place p to the front, those before it move on by one.
  ghost function Shifted(k: int, p: int): (k': int) {
    if k == p then 1 else if 1 <= k < p then k + 1 else k
  }

  ghost function MoveFront(place: seq<int>, b: int): (place': seq<int>)
    requires |place| == NBUF + 1 && 0 <= b < NBUF
  {
    seq(NBUF + 1, x requires 0 <= x <= NBUF => Shifted(place[x], place[b]))
  }

  lemma MoveFrontPermutation(place: seq<int>, b: int)
    requires Permutation(place) && 0 <= b < NBUF
    ensures Permutation(MoveFront(place, b))
  {
    assert place[b] != place[HEAD];
  }

  // The pointer assignments of brelse: take b out, put it in front.
  function UnlinkNext(prev: seq<int>, next: seq<int>, b: int): (n: seq<int>)
    requires |prev| == NBUF + 1 && |next| == NBUF + 1 && 0 <= b < NBUF && 0 <= prev[b] <= NBUF
    ensures |n| == NBUF + 1
  {
    next[prev[b] := next[b]]
  }

  function UnlinkPrev(prev: seq<int>, next: seq<int>, b: int): (p: seq<int>)
    requires |prev| == NBUF + 1 && |next| == NBUF + 1 && 0 <= b < NBUF && 0 <= next[b] <= NBUF
    ensures |p| == NBUF + 1
  {
    prev[next[b] := prev[b]]
  }

  function FrontNext(next: seq<int>, b: int): (n: seq<int>)
    requires |next| == NBUF + 1 && 0 <= b < NBUF
    ensures |n| == NBUF + 1
  {
    next[b := next[HEAD]][HEAD := b]
  }

  function FrontPrev(prev: seq<int>, next: seq<int>, b: int): (p: seq<int>)
    requires |prev| == NBUF + 1 && |next| == NBUF + 1 && 0 <= b < NBUF && 0 <= next[HEAD] <= NBUF
    ensures |p| == NBUF + 1
  {
    prev[b := HEAD][next[HEAD] := b]
  }

  lemma LinkBounds(place: seq<int>, prev: seq<int>, next: seq<int>, b: int)
    requires RingOk(place, prev, next) && 0 <= b < NBUF
    ensures |prev| == NBUF + 1 && |next| == NBUF + 1
    ensures 0 <= prev[b] <= NBUF && 0 <= next[b] <= NBUF && prev[b] != b && next[b] != b
    ensures 0 <= UnlinkNext(prev, next, b)[HEAD] <= NBUF
  {
  }

  lemma MoveFrontNext(place: seq<int>, prev: seq<int>, next: seq<int>, b: int)
    requires RingOk(place, prev, next) && 0 <= b < NBUF
    ensures LinksTo(MoveFront(place, b), FrontNext(UnlinkNext(prev, next, b), b))
  {
    var place', next' := MoveFront(place, b), FrontNext(UnlinkNext(prev, next, b), b);
    var p := place[b];
    assert p != place[HEAD];
    forall x | 0 <= x <= NBUF ensures 0 <= next'[x] <= NBUF && place'[next'[x]] == After(place'[x]) {
      if x != b && x != HEAD && x != prev[b] {
        assert place[x] != p && place[x] != place[prev[b]];
      }
    }
  }

  lemma MoveFrontPrev(place: seq<int>, prev: seq<int>, next: seq<int>, b: int)
    requires RingOk(place, prev, next) && 0 <= b < NBUF && 0 <= UnlinkNext(prev, next, b)[HEAD] <= NBUF
    ensures LinksBack(MoveFront(place, b), FrontPrev(UnlinkPrev(prev, next, b), UnlinkNext(prev, next, b), b))
  {
    var first := UnlinkNext(prev, next, b)[HEAD];
    var place', prev' := MoveFront(place, b), FrontPrev(UnlinkPrev(prev, next, b), UnlinkNext(prev, next, b), b);
    var p := place[b];
    assert p != place[HEAD];
    forall x | 0 <= x <= NBUF ensures 0 <= prev'[x] <= NBUF && place'[prev'[x]] == Before(place'[x]) {
      if x != b && x != first && x != next[b] {
        assert place[x] != p && place[x] != place[next[b]] && place[x] != place[first];
      }
    }
  }
}
