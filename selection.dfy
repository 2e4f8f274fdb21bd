/**
 * The question-selection policy of QuizServer_fix.sendRandomQuestion, on the
 * list usedQuestionIndices: the list is cleared once its length reaches the
 * bank size, and the next index is any index of the bank not on the list.
 */
module Selection {
  import opened Lists

  /** Every index addresses a question of a bank of n questions. */
  predicate InBank(s: seq<nat>, n: nat) {
    forall k :: k in s ==> k < n
  }

  /** What the server keeps true of usedQuestionIndices. */
  predicate ValidUsed(used: seq<nat>, n: nat) {
    Distinct(used) && InBank(used, n)
  }

  /** The used list after the clearing step: empty once every question was asked. */
  function CycleBase(used: seq<nat>, n: nat): seq<nat> {
    if |used| == n then [] else used
  }

  /** A permitted draw: an index of the bank not yet used in the current cycle. */
  predicate IsDraw(used: seq<nat>, n: nat, i: nat) {
    i < n && i !in CycleBase(used, n)
  }

  // ---------------------------------------------------------------------------
  // Counting
  // ---------------------------------------------------------------------------

  function Elems(s: seq<nat>): set<nat> {
    set k | k in s
  }

  function Below(n: nat): (b: set<nat>)
    ensures forall k: nat :: k in b <==> k < n
  {
    if n == 0 then {} else Below(n - 1) + {n - 1}
  }

  lemma {:induction false} ElemsCard(s: seq<nat>)
    requires Distinct(s)
    ensures |Elems(s)| == |s|
  {
    if s != [] {
      var init := s[..|s| - 1];
      ElemsCard(init);
      assert Elems(s) == Elems(init) + {s[|s| - 1]};
      assert s[|s| - 1] !in Elems(init);
    }
  }

  lemma {:induction false} BelowCard(n: nat)
    ensures |Below(n)| == n
  {
    if n > 0 {
      BelowCard(n - 1);
      assert n - 1 !in Below(n - 1);
    }
  }

  lemma SubsetCard(a: set<nat>, b: set<nat>)
    requires a <= b
    ensures |a| <= |b|
    ensures |a| == |b| ==> a == b
  {
    assert b == a + (b - a);
    assert a * (b - a) == {};
  }

  /** A dup-free list of bank indices never outgrows the bank. */
  lemma UsedBounded(used: seq<nat>, n: nat)
    requires ValidUsed(used, n)
    ensures |used| <= n
  {
    ElemsCard(used);
    BelowCard(n);
    SubsetCard(Elems(used), Below(n));
  }

  /** While the cycle is not complete, some question is still unused. */
  lemma UnusedExists(used: seq<nat>, n: nat)
    requires ValidUsed(used, n) && |used| < n
    ensures exists i: nat :: i < n && i !in used
  {
    ElemsCard(used);
    BelowCard(n);
    SubsetCard(Elems(used), Below(n));
    assert Elems(used) != Below(n);
    var i :| i in Below(n) && i !in Elems(used);
  }

  /** The list is cleared only after every question of the bank has been asked. */
  lemma CycleComplete(used: seq<nat>, n: nat)
    requires ValidUsed(used, n) && |used| == n
    ensures forall i: nat :: i < n ==> i in used
  {
    ElemsCard(used);
    BelowCard(n);
    SubsetCard(Elems(used), Below(n));
    assert Elems(used) == Below(n);
    forall i: nat | i < n ensures i in used {
      assert i in Below(n);
    }
  }

  /** Some draw is always possible from a non-empty bank. */
  lemma DrawExists(used: seq<nat>, n: nat)
    requires ValidUsed(used, n) && n > 0
    ensures exists i: nat :: IsDraw(used, n, i)
  {
    if |used| == n {
      assert IsDraw(used, n, 0);
    } else {
      UsedBounded(used, n);
      UnusedExists(used, n);
      var i: nat :| i < n && i !in used;
      assert IsDraw(used, n, i);
    }
  }

  /** Appending a permitted draw keeps the list dup-free, in range and within the bank size. */
  lemma DrawKeepsValid(used: seq<nat>, n: nat, i: nat)
    requires ValidUsed(used, n) && IsDraw(used, n, i)
    ensures ValidUsed(CycleBase(used, n) + [i], n)
    ensures |CycleBase(used, n) + [i]| <= n
  {
    var next := CycleBase(used, n) + [i];
    assert forall k :: k in next ==> k in CycleBase(used, n) || k == i;
    UsedBounded(next, n);
  }
}
