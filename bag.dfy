/**
 * `BagGenerator` of the game server (game/server.py): a queue of upcoming
 * kinds refilled, whenever it runs dry, with a Fisher-Yates shuffle of the
 * seven kinds (the "7-bag" rule). One generator is shared by both players of
 * a room.
 *
 * The seeded `random.Random` is abstracted as its stream of raw draws
 * (`draw(n)` is the n-th); `randint(0, i)` is modelled as that draw reduced
 * modulo i + 1. Only the range of `randint` matters to the properties.
 */
module Bag {
  import opened Pieces

  /** One full bag: the seven kinds, each exactly once, in some order. */
  predicate IsBag(s: seq<Kind>) {
    |s| == 7 && multiset(s) == multiset(AllKinds)
  }

  /** The m-th block of seven kinds. */
  ghost function Block(h: seq<Kind>, m: nat): seq<Kind>
    requires 7 * m + 7 <= |h|
  {
    h[7 * m..7 * m + 7]
  }

  /** A concatenation of `n` whole bags: every block of seven, counted from the start, is a bag. */
  ghost predicate Bags(h: seq<Kind>, n: nat) {
    |h| == 7 * n && forall m: nat :: m < n ==> IsBag(Block(h, m))
  }

  /** Appending one more bag to a run of bags gives a run of bags. */
  lemma BagsAppend(h: seq<Kind>, n: nat, b: seq<Kind>)
    requires Bags(h, n) && IsBag(b)
    ensures Bags(h + b, n + 1)
  {
    forall m: nat | m < n + 1
      ensures IsBag(Block(h + b, m))
    {
      if m < n {
        assert Block(h + b, m) == Block(h, m);
      } else {
        assert Block(h + b, m) == b;
      }
    }
  }

  /**
   * The 7-bag promise seen from the player side: in anything dealt from the
   * front of a run of bags, every full group of seven counted from the
   * first piece holds each kind exactly once.
   */
  lemma DealtGroupIsBag(h: seq<Kind>, n: nat, dealt: seq<Kind>, m: nat)
    requires Bags(h, n) && dealt <= h && 7 * m + 7 <= |dealt|
    ensures IsBag(dealt[7 * m..7 * m + 7])
  {
    assert m < n;
    assert dealt[7 * m..7 * m + 7] == Block(h, m);
  }

  /** A bag holds every kind, and each kind exactly once. */
  lemma BagHoldsEachKindOnce(s: seq<Kind>, k: Kind)
    requires IsBag(s)
    ensures multiset(s)[k] == 1 && k in s
  {
    assert multiset(AllKinds)[k] == 1;
  }

  /** Swapping two positions of a sequence keeps its elements. */
  lemma SwapKeepsMultiset(a: seq<Kind>, b: seq<Kind>, i: nat, j: nat)
    requires i < |a| && j < |a| && b == a[i := a[j]][j := a[i]]
    ensures multiset(b) == multiset(a)
  {
    var c := a[i := a[j]];
    assert multiset(c) == multiset(a) - multiset{a[i]} + multiset{a[j]};
  }

  /**
   * Dealing only ever appends to the history, so whatever is dealt next
   * comes from the front of the queue: the kinds drawn are a prefix of the
   * old queue, or the whole old queue followed by kinds of new bags.
   */
  lemma DealsFromFront(dealt0: seq<Kind>, queue0: seq<Kind>, drawn: seq<Kind>, queue1: seq<Kind>, history1: seq<Kind>)
    requires dealt0 + queue0 <= history1 && (dealt0 + drawn) + queue1 == history1
    ensures drawn <= queue0 || queue0 <= drawn
  {
    var n := if |drawn| <= |queue0| then |drawn| else |queue0|;
    forall i | 0 <= i < n
      ensures drawn[i] == queue0[i]
    {
      assert drawn[i] == history1[|dealt0| + i] == (dealt0 + queue0)[|dealt0| + i];
    }
  }

  class BagGenerator {
    /** The raw output stream of the seeded random number generator. */
    const draw: nat -> nat
    /** How many draws `randint` has consumed so far. */
    var calls: nat
    /** `self.queue`: the kinds still to be dealt, front first. */
    var queue: seq<Kind>
    /** Every kind ever put into the queue, in order. */
    ghost var history: seq<Kind>
    /** How many bags have been shuffled. */
    ghost var rounds: nat
    /** Every kind dealt so far, in dealing order. */
    ghost var dealt: seq<Kind>

    /** What was dealt and what is queued make up a run of whole bags; the queue never holds more than one bag. */
    ghost predicate Valid()
      reads this
    {
      Bags(history, rounds) && |queue| <= 7 && dealt + queue == history
    }

    /** `__init__`: a fresh generator starts with one shuffled bag queued. */
    constructor (draw: nat -> nat)
      ensures Valid() && this.draw == draw
      ensures IsBag(queue) && history == queue && dealt == []
    {
      this.draw := draw;
      calls := 0;
      queue := [];
      history := [];
      rounds := 0;
      dealt := [];
      new;
      assert Bags(history, rounds) && dealt + queue == history;
      Refill();
      assert [] + queue == queue;
    }

    /** `rng.randint(0, hi)`: one draw, in the range [0, hi]. */
    method RandInt(hi: nat) returns (j: nat)
      modifies this
      ensures j <= hi && calls == old(calls) + 1
      ensures queue == old(queue) && history == old(history) && rounds == old(rounds) && dealt == old(dealt)
    {
      j := draw(calls) % (hi + 1);
      calls := calls + 1;
    }

    /**
     * The shuffle of `_refill`: Fisher-Yates over the seven kinds, for i from
     * 6 down to 1 swapping position i with a random j in [0, i]. Whatever the
     * draws, the result is a bag.
     */
    method Shuffle() returns (s: seq<Kind>)
      modifies this
      ensures IsBag(s)
      ensures queue == old(queue) && history == old(history) && rounds == old(rounds) && dealt == old(dealt)
    {
      var bag := new Kind[7](i requires 0 <= i < 7 => AllKinds[i]);
      assert bag[..] == AllKinds;
      var i := 6;
      while i > 0
        invariant 0 <= i <= 6
        invariant multiset(bag[..]) == multiset(AllKinds)
        invariant queue == old(queue) && history == old(history) && rounds == old(rounds) && dealt == old(dealt)
      {
        var j := RandInt(i);
        ghost var before := bag[..];
        bag[i], bag[j] := bag[j], bag[i];
        SwapKeepsMultiset(before, bag[..], i, j);
        i := i - 1;
      }
      s := bag[..];
    }

    /** `_refill`: appends one shuffled bag to the queue. Only called on an empty queue. */
    method Refill()
      requires Valid() && queue == []
      modifies this
      ensures Valid() && IsBag(queue)
      ensures history == old(history) + queue && dealt == old(dealt)
    {
      var s := Shuffle();
      assert dealt == history;
      BagsAppend(history, rounds, s);
      // `queue.extend(bag)` on the empty queue
      queue := s;
      history := history + s;
      rounds := rounds + 1;
    }

    /**
     * `next`: refills first when the queue is empty, so the pop never meets
     * an empty queue; then deals the front kind.
     */
    method Next() returns (k: Kind)
      requires Valid()
      modifies this
      ensures Valid()
      ensures old(queue) != [] ==> k == old(queue)[0] && queue == old(queue)[1..] && history == old(history)
      ensures old(queue) == [] ==> IsBag([k] + queue) && history == old(history) + ([k] + queue)
      ensures dealt == old(dealt) + [k]
      ensures old(history) <= history
    {
      if queue == [] {
        Refill();
      }
      k := queue[0];
      ghost var q := queue;
      queue := queue[1..];
      assert [k] + queue == q;
      dealt := dealt + [k];
    }
  }
}
