/**
 * The generators' random selections, with the random source replaced by the
 * sequence of values `rnd.nextInt` returns: a selection stops as soon as its set
 * is large enough, and reports None when the given draws run out first (the
 * source would keep drawing).
 */
module RandomPicks {
  import opened Common

  /** The friends the draws add for agent `self`: every drawn id other than `self`. */
  function Friends(draws: seq<int>, self: int): set<int>
  {
    if |draws| == 0 then {}
    else Friends(draws[..|draws| - 1], self) + (if draws[|draws| - 1] != self then {draws[|draws| - 1]} else {})
  }

  /** The agents the draws add: every drawn value plus one. */
  function Agents(draws: seq<int>): set<int>
  {
    if |draws| == 0 then {} else Agents(draws[..|draws| - 1]) + {draws[|draws| - 1] + 1}
  }

  /** One more draw adds at most one agent. */
  lemma AgentsStep(draws: seq<int>, u: nat)
    requires u < |draws|
    ensures Agents(draws[..u + 1]) == Agents(draws[..u]) + {draws[u] + 1}
    ensures |Agents(draws[..u + 1])| <= |Agents(draws[..u])| + 1
  {
    assert draws[..u + 1][..u] == draws[..u];
    var s := Agents(draws[..u]);
    if draws[u] + 1 in s {
      assert s + {draws[u] + 1} == s;
    }
  }

  /** Friends are drawn ids in [0, n) and never `self`. */
  lemma {:induction false} FriendsWithin(draws: seq<int>, self: int, n: int)
    requires forall i :: 0 <= i < |draws| ==> 0 <= draws[i] < n
    ensures forall f :: f in Friends(draws, self) ==> 0 <= f < n && f != self
  {
    if |draws| > 0 {
      FriendsWithin(draws[..|draws| - 1], self, n);
    }
  }

  /** Picked agents lie in 1..limit. */
  lemma {:induction false} AgentsWithin(draws: seq<int>, limit: int)
    requires forall i :: 0 <= i < |draws| ==> 0 <= draws[i] < limit
    ensures forall a :: a in Agents(draws) ==> 1 <= a <= limit
  {
    if |draws| > 0 {
      AgentsWithin(draws[..|draws| - 1], limit);
    }
  }

  /**
   * pick_random_friends: draw ids in [0, n) and keep those other than `self` until
   * `amount` distinct friends are held. `used` is the number of draws consumed.
   */
  method PickRandomFriends(amount: int, self: int, n: int, draws: seq<int>) returns (picks: Option<set<int>>, used: nat)
    requires forall i :: 0 <= i < |draws| ==> 0 <= draws[i] < n
    ensures used <= |draws|
    ensures picks.Some? ==> (picks.value == Friends(draws[..used], self) &&
      |picks.value| == (if amount < 0 then 0 else amount) &&
      self !in picks.value && forall f :: f in picks.value ==> 0 <= f < n)
    ensures forall u :: 0 <= u < used ==> |Friends(draws[..u], self)| < amount
    ensures picks.None? ==> used == |draws| && |Friends(draws, self)| < amount
  {
    var chosen: set<int> := {};
    used := 0;
    assert draws[..0] == [];
    while |chosen| < amount && used < |draws|
      invariant used <= |draws| && chosen == Friends(draws[..used], self)
      invariant forall u :: 0 <= u < used ==> |Friends(draws[..u], self)| < amount
      invariant amount >= 0 ==> |chosen| <= amount
      decreases |draws| - used
    {
      var friend := draws[used];
      if friend != self {
        chosen := chosen + {friend};
      }
      assert draws[..used + 1][..used] == draws[..used];
      used := used + 1;
    }
    if |chosen| < amount {
      assert draws[..used] == draws;
      picks := None;
    } else {
      FriendsWithin(draws[..used], self, n);
      picks := Some(chosen);
    }
  }
}
