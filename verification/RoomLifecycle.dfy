/** The room state machine that the service is checked against. */
module RoomLifecycle {
  datatype RoomState = Open | Active | Closed | Purged
  {
    predicate CanTransitionTo(next: RoomState)
    {
      match this
      case Open => next == Active || next == Closed
      case Active => next == Closed
      case Closed => next == Purged
      case Purged => false
    }

    /** How far along its life a room is. */
    function Stage(): nat
    {
      match this
      case Open => 0
      case Active => 1
      case Closed => 2
      case Purged => 3
    }
  }

  /** Consecutive entries are equal or joined by a permitted transition. */
  ghost predicate Legal(history: seq<RoomState>)
  {
    forall i :: 0 < i < |history| ==> history[i-1] == history[i] || history[i-1].CanTransitionTo(history[i])
  }

  /** How often a history enters `s`. */
  function Entries(history: seq<RoomState>, s: RoomState): nat
  {
    if |history| < 2 then 0
    else
      Entries(history[..|history|-1], s) +
      if history[|history|-2] != s && history[|history|-1] == s then 1 else 0
  }

  lemma {:induction false} LegalNeverGoesBack(history: seq<RoomState>, i: nat, j: nat)
    requires Legal(history) && i <= j < |history|
    ensures history[i].Stage() <= history[j].Stage()
    ensures history[i].Stage() == history[j].Stage() <==> history[i] == history[j]
    decreases j
  {
    if i < j {
      LegalNeverGoesBack(history, i, j - 1);
      assert history[j-1] == history[j] || history[j-1].CanTransitionTo(history[j]);
    }
  }

  /** A legal history enters any state at most once, so a room closes once and is purged once. */
  lemma {:induction false} LegalEntersOnce(history: seq<RoomState>, s: RoomState)
    requires Legal(history)
    ensures Entries(history, s) <= 1
    ensures Entries(history, s) == 1 ==> history[|history|-1].Stage() >= s.Stage()
  {
    if |history| >= 2 {
      var before := history[..|history|-1];
      LegalEntersOnce(before, s);
      LegalNeverGoesBack(history, |history| - 2, |history| - 1);
      assert before[|before|-1] == history[|history|-2];
    }
  }
}
