/**
  The bounded list of generation keys of one route through a run: sightings of the route, and moments
  it is given up. A generation is counted when its key is not in the list.
 */
module PilotWindow {
  import opened Wrappers
  import opened InsertionMap
  import opened PilotRoute

  datatype Step = Elsewhere | Sighted(generation: GenerationKey) | GivenUp

  /** The keys after the first n steps. */
  function KeysAfter(steps: seq<Step>, n: nat, window: nat): seq<GenerationKey>
    requires n <= |steps|
  {
    if n == 0 then []
    else
      var before := KeysAfter(steps, n - 1, window);
      match steps[n - 1]
      case Elsewhere => before
      case GivenUp => []
      case Sighted(g) => if g in before then before else Retain(before, g, window)
  }

  predicate Counts(steps: seq<Step>, n: nat, window: nat)
    requires n < |steps|
  {
    steps[n].Sighted? && steps[n].generation !in KeysAfter(steps, n, window)
  }

  ghost predicate GivenUpBetween(steps: seq<Step>, i: nat, n: nat)
    requires n <= |steps|
  {
    exists m: nat :: i < m < n && steps[m].GivenUp?
  }

  /** How many generations steps i + 1 to n - 1 count. */
  function CountedBetween(steps: seq<Step>, i: nat, n: nat, window: nat): nat
    requires n <= |steps|
  {
    if n <= i + 1 then 0 else CountedBetween(steps, i, n - 1, window) + One(Counts(steps, n - 1, window))
  }

  /** Step i counts a generation that no step after it and before n counts. */
  ghost predicate LastCounted(steps: seq<Step>, i: nat, n: nat, g: GenerationKey, window: nat)
    requires i < n <= |steps|
  {
    && steps[i] == Sighted(g) && Counts(steps, i, window)
    && forall j :: i < j < n && steps[j] == Sighted(g) ==> !Counts(steps, j, window)
  }

  lemma {:induction false} KeysBounded(steps: seq<Step>, n: nat, window: nat)
    requires n <= |steps| && window > 0
    ensures |KeysAfter(steps, n, window)| <= window && NoDuplicates(KeysAfter(steps, n, window))
  {
    if n > 0 {
      KeysBounded(steps, n - 1, window);
    }
  }

  /** The generation is still the one that `later` others have followed, or has left the list. */
  ghost predicate Followed(keys: seq<GenerationKey>, g: GenerationKey, later: nat, window: nat) {
    if later < window then later < |keys| && keys[|keys| - 1 - later] == g else g !in keys
  }

  lemma FollowedByOne(keys: seq<GenerationKey>, g: GenerationKey, later: nat, window: nat, next: GenerationKey)
    requires Followed(keys, g, later, window) && next != g && window > 0 && |keys| <= window && NoDuplicates(keys)
    ensures Followed(Retain(keys, next, window), g, later + 1, window)
  {
    var longer := keys + [next];
    assert later < window ==> longer[|longer| - 1 - (later + 1)] == g;
  }

  /** Where the generation counted at i stands while the route stays. */
  lemma {:induction false} Stands(steps: seq<Step>, i: nat, n: nat, g: GenerationKey, window: nat)
    requires window > 0 && i < n <= |steps| && LastCounted(steps, i, n, g, window)
    requires !GivenUpBetween(steps, i, n)
    ensures Followed(KeysAfter(steps, n, window), g, CountedBetween(steps, i, n, window), window)
  {
    if n > i + 1 {
      assert !steps[n - 1].GivenUp?;
      assert !GivenUpBetween(steps, i, n - 1);
      Stands(steps, i, n - 1, g, window);
      if Counts(steps, n - 1, window) {
        KeysBounded(steps, n - 1, window);
        FollowedByOne(KeysAfter(steps, n - 1, window), g, CountedBetween(steps, i, n - 1, window), window,
                      steps[n - 1].generation);
      }
    }
  }

  /** After the route was given up, a generation is gone until it is counted anew. */
  lemma {:induction false} Forgotten(steps: seq<Step>, m: nat, n: nat, g: GenerationKey, window: nat)
    requires m < n <= |steps| && (m == 0 || steps[m].GivenUp?)
    requires forall j :: m <= j < n && steps[j] == Sighted(g) ==> !Counts(steps, j, window)
    ensures g !in KeysAfter(steps, n, window)
  {
    if n > m + 1 {
      Forgotten(steps, m, n - 1, g, window);
    }
    if Counts(steps, n - 1, window) {
      NotRetained(KeysAfter(steps, n - 1, window), steps[n - 1].generation, g, window);
    }
  }

  lemma NotRetained(keys: seq<GenerationKey>, next: GenerationKey, g: GenerationKey, window: nat)
    requires g !in keys && next != g
    ensures g !in Retain(keys, next, window)
  {
    var longer := keys + [next];
    assert forall i :: 0 <= i < |Retain(keys, next, window)| ==> Retain(keys, next, window)[i] in longer;
  }

  /**
    A generation is counted again exactly when its route was given up since it was last counted, or at
    least as many other generations as the window is long have been counted since.
   */
  lemma CountedAgainExactly(steps: seq<Step>, i: nat, n: nat, g: GenerationKey, window: nat)
    requires window > 0 && i < n < |steps| && LastCounted(steps, i, n, g, window) && steps[n] == Sighted(g)
    ensures Counts(steps, n, window) <==> GivenUpBetween(steps, i, n) || CountedBetween(steps, i, n, window) >= window
  {
    if GivenUpBetween(steps, i, n) {
      var m: nat :| i < m < n && steps[m].GivenUp?;
      Forgotten(steps, m, n, g, window);
    } else {
      Stands(steps, i, n, g, window);
      var keys, later := KeysAfter(steps, n, window), CountedBetween(steps, i, n, window);
      assert later < window ==> keys[|keys| - 1 - later] in keys;
    }
  }

  /** A generation no step has counted is counted: none is missed. */
  lemma FirstSightingCounts(steps: seq<Step>, n: nat, g: GenerationKey, window: nat)
    requires n < |steps| && steps[n] == Sighted(g)
    requires forall j :: 0 <= j < n && steps[j] == Sighted(g) ==> !Counts(steps, j, window)
    ensures Counts(steps, n, window)
  {
    if n > 0 {
      Forgotten(steps, 0, n, g, window);
    }
  }
}
