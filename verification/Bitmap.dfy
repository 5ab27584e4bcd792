/** The two-level bitmap over the 256 priorities (sel4_task/src/scheduler.rs): bit i of the level-one
    word tells whether any of the priorities 64i .. 64i+63 has a non-empty ready queue, and the
    level-two words, stored in inverted order, tell which. */
module Bitmap {
  import opened Config
  import opened SchedulerSpec

  const L2_WORDS := 4

  /** A 64-bit word, least significant bit first. */
  type Word = seq<bool>

  predicate IsZero(w: Word) {
    forall i :: 0 <= i < |w| ==> !w[i]
  }

  function LeadingZeros(w: Word): (n: nat)
    ensures n <= |w|
    ensures n == |w| <==> IsZero(w)
    ensures n < |w| ==> w[|w| - 1 - n]
    ensures forall i :: |w| - n <= i < |w| ==> !w[i]
  {
    if w == [] || w[|w| - 1] then 0 else 1 + LeadingZeros(w[..|w| - 1])
  }

  function L1Index(prio: nat): (i: nat) {
    prio / WORD_BITS
  }

  function Inverted(l1index: nat): (i: nat)
    requires l1index < L2_WORDS
  {
    L2_WORDS - 1 - l1index
  }

  /** The level-two bit of a priority. */
  predicate BitOf(l2: seq<Word>, prio: nat)
    requires Shape2(l2) && prio < NUM_PRIORITIES
  {
    l2[Inverted(L1Index(prio))][prio % WORD_BITS]
  }

  predicate Shape2(l2: seq<Word>) {
    |l2| == L2_WORDS && forall i :: 0 <= i < L2_WORDS ==> |l2[i]| == WORD_BITS
  }

  predicate Shape(l1: Word, l2: seq<Word>) {
    |l1| == WORD_BITS && Shape2(l2)
  }

  /** The bitmap tells exactly which queues are non-empty. */
  ghost predicate Tells(l1: Word, l2: seq<Word>, queues: seq<seq<nat>>) {
    && Shape(l1, l2) && |queues| == NUM_PRIORITIES
    && (forall p :: 0 <= p < |queues| ==> (BitOf(l2, p) <==> queues[p] != []))
    && (forall i :: 0 <= i < WORD_BITS ==> (l1[i] <==> i < L2_WORDS && !IsZero(l2[Inverted(i)])))
  }

  const ZERO: Word := seq(WORD_BITS, _ => false)

  /** The cleared bitmap belongs to empty queues. */
  lemma EmptyTells()
    ensures Tells(ZERO, seq(L2_WORDS, _ => ZERO), seq(NUM_PRIORITIES, _ => []))
  {
  }

  /** addToBitmap */
  function Add(l1: Word, l2: seq<Word>, prio: nat): (r: (Word, seq<Word>))
    requires Shape(l1, l2) && prio < NUM_PRIORITIES
  {
    var i := L1Index(prio);
    (l1[i := true], l2[Inverted(i) := l2[Inverted(i)][prio % WORD_BITS := true]])
  }

  /** removeFromBitmap */
  function Drop(l1: Word, l2: seq<Word>, prio: nat): (r: (Word, seq<Word>))
    requires Shape(l1, l2) && prio < NUM_PRIORITIES
  {
    var i := L1Index(prio);
    var w := l2[Inverted(i)][prio % WORD_BITS := false];
    (if IsZero(w) then l1[i := false] else l1, l2[Inverted(i) := w])
  }

  lemma AddTells(l1: Word, l2: seq<Word>, queues: seq<seq<nat>>, p: nat, q: seq<nat>)
    requires Tells(l1, l2, queues) && p < NUM_PRIORITIES && q != []
    ensures var r := Add(l1, l2, p); Tells(r.0, r.1, queues[p := q])
  {
    var r := Add(l1, l2, p);
    forall x | 0 <= x < NUM_PRIORITIES
      ensures BitOf(r.1, x) <==> queues[p := q][x] != []
    {
      assert BitOf(l2, x) <==> queues[x] != [];
    }
    assert r.1[Inverted(L1Index(p))][p % WORD_BITS];
  }

  lemma DropTells(l1: Word, l2: seq<Word>, queues: seq<seq<nat>>, p: nat)
    requires Tells(l1, l2, queues) && p < NUM_PRIORITIES
    ensures var r := Drop(l1, l2, p); Tells(r.0, r.1, queues[p := []])
  {
    var r := Drop(l1, l2, p);
    forall x | 0 <= x < NUM_PRIORITIES
      ensures BitOf(r.1, x) <==> queues[p := []][x] != []
    {
      assert BitOf(l2, x) <==> queues[x] != [];
    }
  }

  lemma SameTells(l1: Word, l2: seq<Word>, queues: seq<seq<nat>>, p: nat, q: seq<nat>)
    requires Tells(l1, l2, queues) && p < NUM_PRIORITIES && (q == [] <==> queues[p] == [])
    ensures Tells(l1, l2, queues[p := q])
  {
    forall x | 0 <= x < NUM_PRIORITIES
      ensures BitOf(l2, x) <==> queues[p := q][x] != []
    {
      assert BitOf(l2, x) <==> queues[x] != [];
    }
  }

  /** getHighestPrio. The priority is put together with an or of a multiple of 64 and a number below 64. */
  function GetHighestPrio(l1: Word, l2: seq<Word>): (p: nat)
    requires Shape(l1, l2) && !IsZero(l1)
    requires forall i :: 0 <= i < WORD_BITS && l1[i] ==> i < L2_WORDS && !IsZero(l2[Inverted(i)])
    ensures p < NUM_PRIORITIES
  {
    var l1index := WORD_BITS - 1 - LeadingZeros(l1);
    var l2index := WORD_BITS - 1 - LeadingZeros(l2[Inverted(l1index)]);
    l1index * WORD_BITS + l2index
  }

  lemma QueuedSetsLevelOne(l1: Word, l2: seq<Word>, queues: seq<seq<nat>>)
    requires Tells(l1, l2, queues)
    ensures forall p :: 0 <= p < |queues| && queues[p] != [] ==>
      l1[L1Index(p)] && l2[Inverted(L1Index(p))][p % WORD_BITS]
  {
    forall p | 0 <= p < |queues| && queues[p] != []
      ensures l1[L1Index(p)] && l2[Inverted(L1Index(p))][p % WORD_BITS]
    {
      assert BitOf(l2, p);
    }
  }

  lemma ZeroMeansNothingQueued(l1: Word, l2: seq<Word>, queues: seq<seq<nat>>)
    requires Tells(l1, l2, queues)
    ensures IsZero(l1) <==> HighestPrio(queues) == -1
  {
    QueuedSetsLevelOne(l1, l2, queues);
    if !IsZero(l1) {
      var i :| 0 <= i < WORD_BITS && l1[i];
      var b :| 0 <= b < WORD_BITS && l2[Inverted(i)][b];
      assert BitOf(l2, i * WORD_BITS + b);
    }
  }

  /** The leading-zero counts find the highest non-empty queue. */
  lemma HighestPrioIsMaximum(l1: Word, l2: seq<Word>, queues: seq<seq<nat>>)
    requires Tells(l1, l2, queues) && !IsZero(l1)
    ensures GetHighestPrio(l1, l2) == HighestPrio(queues)
  {
    var i := WORD_BITS - 1 - LeadingZeros(l1);
    var w := l2[Inverted(i)];
    var b := WORD_BITS - 1 - LeadingZeros(w);
    var p := i * WORD_BITS + b;
    assert BitOf(l2, p);
    QueuedSetsLevelOne(l1, l2, queues);
    forall x | p < x < NUM_PRIORITIES
      ensures queues[x] == []
    {
      assert L1Index(x) > i || (L1Index(x) == i && x % WORD_BITS > b);
    }
  }
}
