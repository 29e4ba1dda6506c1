/*
 * The score store of a single-player, 18-hole golf score tracker.
 *
 * The app keeps one array of per-hole stroke counts in memory, loads it from a
 * single local-storage key at start-up, writes it back after every change, and
 * shows the sum of the array as the round's total. This module holds the pure
 * specification of that store (loading, adjusting one hole, the total) and the
 * class that owns the mutable array.
 */
module App {

  /** Number of holes in a round. */
  const Holes: nat := 18

  /**
   * What reading the storage key and parsing it as JSON produced. JSON itself is
   * not modelled: a value that parses to an array of numbers is `Array`.
   */
  datatype Stored =
    | Missing              // nothing stored, or an empty string
    | Unparsable           // reading or parsing threw (the exception is swallowed)
    | NotArray             // parsed, but not to an array
    | Array(items: seq<int>)

  function Max(a: int, b: int): (m: int) { if a < b then b else a }

  /** A row of `n` zero scores. */
  function Zeros(n: nat): (r: seq<int>)
    ensures |r| == n
    ensures forall i :: 0 <= i < n ==> r[i] == 0
  {
    seq(n, _ => 0)
  }

  predicate NonNegative(s: seq<int>)
  {
    forall i :: 0 <= i < |s| ==> s[i] >= 0
  }

  // ---------------------------------------------------------------------------
  // Loading and saving
  // ---------------------------------------------------------------------------

  /**
   * The scores recovered from storage. A stored array is taken as it is when it
   * has exactly one entry per hole; everything else (nothing stored, a parse
   * failure, a non-array, an array of another length) gives a round of zeros.
   * The elements are not checked, so the result need not be non-negative.
   */
  function StoredScores(stored: Stored): (r: seq<int>)
    ensures |r| == Holes
    ensures stored == Array(r) <==> stored.Array? && |stored.items| == Holes
    ensures stored != Array(r) ==> r == Zeros(Holes)
  {
    if stored.Array? && |stored.items| == Holes then stored.items else Zeros(Holes)
  }

  /**
   * What saving the scores leaves in storage: the array is written as JSON and
   * reads back as the same array, so a saved round always loads back unchanged.
   */
  function Saved(scores: seq<int>): (stored: Stored)
    ensures stored.Array?
    ensures |scores| == Holes ==> StoredScores(stored) == scores
  {
    Array(scores)
  }

  // ---------------------------------------------------------------------------
  // The total
  // ---------------------------------------------------------------------------

  /**
   * The sum of the scores, accumulated from the first hole to the last.
   * Non-negative scores have a non-negative total.
   */
  function Sum(s: seq<int>): (total: int)
    ensures NonNegative(s) ==> total >= 0
  {
    if s == [] then 0 else Sum(s[..|s| - 1]) + s[|s| - 1]
  }

  /** A round of zeros totals zero. */
  lemma {:induction false} SumOfZeros(n: nat)
    ensures Sum(Zeros(n)) == 0
  {
    if n > 0 {
      assert Zeros(n)[..n - 1] == Zeros(n - 1);
      SumOfZeros(n - 1);
    }
  }

  /** Changing one hole changes the total by exactly the change at that hole. */
  lemma {:induction false} SumUpdate(s: seq<int>, i: int, v: int)
    requires 0 <= i < |s|
    ensures Sum(s[i := v]) == Sum(s) - s[i] + v
  {
    var n := |s| - 1;
    if i < n {
      assert s[i := v][..n] == s[..n][i := v];
      SumUpdate(s[..n], i, v);
    } else {
      assert s[i := v][..n] == s[..n];
    }
  }

  // ---------------------------------------------------------------------------
  // Adjusting one hole
  // ---------------------------------------------------------------------------

  /**
   * The scores after a plus or minus click on hole `index`: that hole moves by
   * `delta` but never below zero, and every other hole keeps its score.
   */
  function Adjusted(s: seq<int>, index: int, delta: int): (r: seq<int>)
    requires 0 <= index < |s|
    ensures |r| == |s|
    ensures r[index] >= 0 && r[index] >= s[index] + delta
    ensures r[index] == 0 || r[index] == s[index] + delta
    ensures forall j :: 0 <= j < |s| && j != index ==> r[j] == s[j]
    ensures NonNegative(s) ==> NonNegative(r)
  {
    s[index := Max(0, s[index] + delta)]
  }

  /**
   * The minus button of a hole is disabled when the hole's score is zero, which
   * is exactly when pressing it would change nothing: at zero a decrement stays
   * at zero, and at any other score it moves.
   */
  function MinusDisabled(s: seq<int>, index: int): (disabled: bool)
    requires 0 <= index < |s|
    ensures disabled <==> Adjusted(s, index, -1) == s
  {
    s[index] == 0
  }

  /** How an adjustment moves the total: by the change at the adjusted hole. */
  lemma AdjustTotal(s: seq<int>, index: int, delta: int)
    requires 0 <= index < |s|
    ensures Sum(Adjusted(s, index, delta)) == Sum(s) - s[index] + Max(0, s[index] + delta)
  {
    SumUpdate(s, index, Max(0, s[index] + delta));
  }

  /** One more shot on a hole raises the total by exactly one. */
  lemma IncrementRaisesTotal(s: seq<int>, index: int)
    requires 0 <= index < |s| && s[index] >= 0
    ensures Sum(Adjusted(s, index, 1)) == Sum(s) + 1
  {
    AdjustTotal(s, index, 1);
  }

  /**
   * One less shot on a hole lowers the total by one when the hole has shots,
   * and leaves it unchanged when the hole is at zero.
   */
  lemma DecrementLowersTotal(s: seq<int>, index: int)
    requires 0 <= index < |s| && s[index] >= 0
    ensures Sum(Adjusted(s, index, -1)) == if s[index] > 0 then Sum(s) - 1 else Sum(s)
  {
    AdjustTotal(s, index, -1);
  }

  /** The scores after the same adjustment is applied `n` times to one hole. */
  function Repeated(s: seq<int>, index: int, delta: int, n: nat): (r: seq<int>)
    requires 0 <= index < |s|
    ensures |r| == |s|
    ensures forall j :: 0 <= j < |s| && j != index ==> r[j] == s[j]
    decreases n
  {
    if n == 0 then s else Adjusted(Repeated(s, index, delta, n - 1), index, delta)
  }

  /**
   * Repeated adjustments of a hole that starts non-negative add up, floored at
   * zero: ten decrements from zero leave zero, not minus ten.
   */
  lemma {:induction false} RepeatedAdjustAt(s: seq<int>, index: int, delta: int, n: nat)
    requires 0 <= index < |s| && s[index] >= 0
    ensures Repeated(s, index, delta, n)[index] == Max(0, s[index] + n * delta)
  {
    if n > 0 {
      RepeatedAdjustAt(s, index, delta, n - 1);
      assert n * delta == (n - 1) * delta + delta;
    }
  }

  /**
   * Click listeners registered on the hole list after `newRounds` new rounds:
   * one from start-up, and one more each time a new round re-renders the list.
   */
  function ListenersAfter(newRounds: nat): (listeners: nat)
    ensures listeners == newRounds + 1
  {
    if newRounds == 0 then 1 else ListenersAfter(newRounds - 1) + 1
  }

  /**
   * As written, one click runs every registered listener, so after `newRounds`
   * new rounds a single plus click adds `newRounds + 1` shots to the hole.
   */
  lemma DuplicateListenersMultiplyClicks(s: seq<int>, index: int, newRounds: nat)
    requires 0 <= index < |s| && s[index] >= 0
    ensures Repeated(s, index, 1, ListenersAfter(newRounds))[index] == s[index] + newRounds + 1
  {
    RepeatedAdjustAt(s, index, 1, ListenersAfter(newRounds));
  }

  /** Concretely: after one new round, one plus click on hole 1 records two shots. */
  lemma DuplicateListenerExample()
    ensures Repeated(Zeros(Holes), 0, 1, ListenersAfter(1))[0] == 2
  {
  }

  // ---------------------------------------------------------------------------
  // Rendering
  // ---------------------------------------------------------------------------

  /** What a hole card shows: its 1-based number and its current shots. */
  datatype HoleCard = HoleCard(number: nat, shots: int)

  // ---------------------------------------------------------------------------
  // The store
  // ---------------------------------------------------------------------------

  /**
   * The in-memory scores and the storage key they are saved to. The object
   * invariant says that reloading from storage would give the scores in memory.
   */
  class ScoreCard {
    var scores: array<int>
    var persisted: Stored

    ghost predicate Valid()
      reads this, scores
    {
      scores.Length == Holes && StoredScores(persisted) == scores[..]
    }

    /** The round total shown under the holes. */
    function Total(): (total: int)
      reads this, scores
      ensures NonNegative(scores[..]) ==> total >= 0
    {
      Sum(scores[..])
    }

    /** Start-up: read the round back from storage, repairing what is not usable. */
    constructor Load(stored: Stored)
      ensures Valid() && fresh(scores)
      ensures scores[..] == StoredScores(stored)
      ensures persisted == stored
    {
      var s := StoredScores(stored);
      var a := new int[Holes](i => if 0 <= i < |s| then s[i] else 0);
      assert a[..] == s;
      scores := a;
      persisted := stored;
    }

    /**
     * A plus or minus click on hole `index`: move the score by `delta`, floored
     * at zero, save, and report the values the page refreshes: the hole's new
     * score, whether its minus button is now disabled, and the new total.
     */
    method Adjust(index: int, delta: int) returns (shown: int, minusDisabled: bool, total: int)
      requires Valid() && 0 <= index < Holes
      modifies scores, this`persisted
      ensures Valid() && scores == old(scores)
      ensures scores[..] == Adjusted(old(scores[..]), index, delta)
      ensures persisted == Saved(scores[..])
      ensures old(NonNegative(scores[..])) ==> NonNegative(scores[..])
      ensures shown == scores[index] && shown >= 0
      ensures minusDisabled <==> MinusDisabled(scores[..], index)
      ensures total == Total() && total == old(Total()) - old(scores[index]) + shown
    {
      ghost var before := scores[..];
      var next := scores[index] + delta;
      scores[index] := Max(0, next);
      assert scores[..] == Adjusted(before, index, delta);
      persisted := Saved(scores[..]);
      shown := scores[index];
      minusDisabled := shown == 0;
      AdjustTotal(before, index, delta);
      total := Total();
    }

    /** A confirmed new round: every hole back to zero, saved; the total is zero. */
    method NewRound() returns (total: int)
      requires Valid()
      modifies this
      ensures Valid() && fresh(scores)
      ensures scores[..] == Zeros(Holes) && NonNegative(scores[..])
      ensures persisted == Saved(scores[..])
      ensures total == Total() && total == 0
    {
      scores := new int[Holes](_ => 0);
      assert scores[..] == Zeros(Holes);
      persisted := Saved(scores[..]);
      SumOfZeros(Holes);
      total := Total();
    }

    /** The cards drawn for the holes, in order, numbered from 1. */
    method RenderHoles() returns (cards: seq<HoleCard>)
      requires Valid()
      ensures |cards| == Holes
      ensures forall i :: 0 <= i < Holes ==> cards[i] == HoleCard(i + 1, scores[i])
    {
      cards := [];
      for i := 0 to Holes
        invariant |cards| == i
        invariant forall k :: 0 <= k < i ==> cards[k] == HoleCard(k + 1, scores[k])
      {
        cards := cards + [HoleCard(i + 1, scores[i])];
      }
    }

    /** Which minus buttons are disabled after rendering: those of holes at zero. */
    method MinusButtonStates() returns (disabled: seq<bool>)
      requires Valid()
      ensures |disabled| == Holes
      ensures forall i :: 0 <= i < Holes ==> (disabled[i] <==> scores[i] == 0)
      ensures forall i :: 0 <= i < Holes ==> (disabled[i] <==> Adjusted(scores[..], i, -1) == scores[..])
    {
      disabled := [];
      for i := 0 to Holes
        invariant |disabled| == i
        invariant forall k :: 0 <= k < i ==> disabled[k] == MinusDisabled(scores[..], k)
      {
        disabled := disabled + [MinusDisabled(scores[..], i)];
      }
    }
  }
}
