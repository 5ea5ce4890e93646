/**
 * Distribution of players over teams (TeamUtils.shuffleTeams).
 *
 * The arguments are checked first, in this order: the player list must not
 * be empty, the team list must not be empty, and when a cap map is given
 * every cap must be positive, the map must have one entry per team and only
 * teams from the list as keys, and the caps must add up to at least the
 * number of players. Then a shuffled copy of the player list is emptied from
 * its end, each player going to the next team in round-robin order that is
 * still below its cap.
 *
 * The shuffle is a parameter: any permutation of the player list.
 */
module TeamUtils {
  import opened Seqs
  import opened Minigames
  import opened Teams

  datatype ShuffleError = EmptyPlayers | EmptyTeams | NonPositiveCap | CapsMismatch | OverCapacity

  // ---------------------------------------------------------------------
  // Sums over maps and counting
  // ---------------------------------------------------------------------

  /** The sum of m's values over the keys in ks. */
  ghost function SumOver<K>(m: map<K, int>, ks: set<K>): int
    requires ks <= m.Keys
    decreases ks
  {
    if ks == {} then 0
    else
      var k :| k in ks;
      m[k] + SumOver(m, ks - {k})
  }

  /** The sum of a map's values. */
  ghost function MapSum<K>(m: map<K, int>): int
  {
    SumOver(m, m.Keys)
  }

  /** Any key can be taken out of the sum first. */
  lemma {:induction false} SumOverRemove<K>(m: map<K, int>, ks: set<K>, k: K)
    requires ks <= m.Keys && k in ks
    ensures SumOver(m, ks) == m[k] + SumOver(m, ks - {k})
    decreases ks
  {
    var j :| j in ks && SumOver(m, ks) == m[j] + SumOver(m, ks - {j});
    if j != k {
      SumOverRemove(m, ks - {j}, k);
      SumOverRemove(m, ks - {k}, j);
      assert ks - {j} - {k} == ks - {k} - {j};
    }
  }

  /** Sums over the same keys compare as the values do. */
  lemma {:induction false} SumOverMonotone<K>(a: map<K, int>, b: map<K, int>, ks: set<K>)
    requires ks <= a.Keys && ks <= b.Keys
    requires forall k :: k in ks ==> a[k] >= b[k]
    ensures SumOver(a, ks) >= SumOver(b, ks)
    ensures (forall k :: k in ks ==> a[k] == b[k]) ==> SumOver(a, ks) == SumOver(b, ks)
    decreases ks
  {
    if ks != {} {
      var k :| k in ks;
      SumOverRemove(a, ks, k);
      SumOverRemove(b, ks, k);
      SumOverMonotone(a, b, ks - {k});
    }
  }

  lemma MapSumMonotone<K>(a: map<K, int>, b: map<K, int>)
    requires a.Keys == b.Keys
    requires forall k :: k in a ==> a[k] >= b[k]
    ensures MapSum(a) >= MapSum(b)
  {
    SumOverMonotone(a, b, a.Keys);
  }

  lemma MapSumIncrement<K>(m: map<K, int>, k: K)
    requires k in m
    ensures MapSum(m[k := m[k] + 1]) == MapSum(m) + 1
  {
    var m' := m[k := m[k] + 1];
    assert m'.Keys == m.Keys;
    SumOverRemove(m, m.Keys, k);
    SumOverRemove(m', m.Keys, k);
    SumOverMonotone(m', m, m.Keys - {k});
  }

  lemma {:induction false} SumOverZero<K>(m: map<K, int>, ks: set<K>)
    requires ks <= m.Keys
    requires forall k :: k in ks ==> m[k] == 0
    ensures SumOver(m, ks) == 0
    decreases ks
  {
    if ks != {} {
      var k :| k in ks;
      SumOverRemove(m, ks, k);
      SumOverZero(m, ks - {k});
    }
  }

  lemma {:induction false} ElementsCard<T>(s: seq<T>)
    ensures |set x | x in s| <= |s|
    ensures |set x | x in s| == |s| ==> NoDup(s)
  {
    if s != [] {
      var last := s[|s| - 1];
      var init := s[..|s| - 1];
      ElementsCard(init);
      assert (set x | x in s) == (set x | x in init) + {last} by {
        assert s == init + [last];
      }
      if |set x | x in s| == |s| {
        assert last !in init;
        forall i, j | 0 <= i < j < |s|
          ensures s[i] != s[j]
        {
          if j == |s| - 1 {
            assert s[i] == init[i];
          } else {
            assert s[i] == init[i] && s[j] == init[j];
          }
        }
      }
    }
  }

  lemma {:induction false} SubsetCard<T>(a: set<T>, b: set<T>)
    requires a <= b
    ensures |a| <= |b|
    ensures |a| == |b| ==> a == b
    decreases a
  {
    if a != {} {
      var y :| y in a;
      assert y in b;
      SubsetCard(a - {y}, b - {y});
      assert a == (a - {y}) + {y};
      assert b == (b - {y}) + {y};
    } else if |b| == 0 {
      assert b == {};
    }
  }

  // ---------------------------------------------------------------------
  // Euclidean division facts used by the round-robin index
  // ---------------------------------------------------------------------

  /** Multiplying by a positive n keeps a nonzero factor at least n away from 0. */
  lemma MulAwayFromZero(x: int, n: int)
    requires n > 0
    ensures x >= 1 ==> x * n >= n
    ensures x <= -1 ==> x * n <= -n
  {
    if x >= 1 {
      assert x * n == (x - 1) * n + n;
      assert (x - 1) * n >= 0;
    } else if x <= -1 {
      assert x * n == -((-x - 1) * n) - n;
      assert (-x - 1) * n >= 0;
    }
  }

  /** Quotient and remainder are the only ones that rebuild p. */
  lemma DivModUnique(p: int, n: int, d: int, r: int)
    requires n > 0 && 0 <= r < n && p == d * n + r
    ensures p / n == d && p % n == r
  {
    var q := p / n;
    var m := p % n;
    assert p == q * n + m && 0 <= m < n;
    assert (q - d) * n == r - m by {
      assert (q - d) * n == q * n - d * n;
    }
    MulAwayFromZero(q - d, n);
  }

  /** The index after c in a cycle of n: (c + 1) % n without the modulus. */
  lemma NextIndex(c: nat, n: nat)
    requires c < n
    ensures (c + 1) % n == if c + 1 == n then 0 else c + 1
  {
    if c + 1 == n {
      DivModUnique(c + 1, n, 1, 0);
    } else {
      DivModUnique(c + 1, n, 0, c + 1);
    }
  }

  /** Quotient and remainder of k + 1 from those of k. */
  lemma NextQuotient(k: nat, n: nat)
    requires n > 0
    ensures (k + 1) / n == if k % n == n - 1 then k / n + 1 else k / n
    ensures (k + 1) % n == if k % n == n - 1 then 0 else k % n + 1
  {
    var d := k / n;
    var r := k % n;
    assert k == d * n + r;
    if r == n - 1 {
      assert (d + 1) * n == d * n + n;
      DivModUnique(k + 1, n, d + 1, 0);
    } else {
      DivModUnique(k + 1, n, d, r + 1);
    }
  }

  /** Advancing the cycle position of k gives the cycle position of k + 1. */
  lemma ModStep(k: nat, n: nat)
    requires n > 0
    ensures (k % n + 1) % n == (k + 1) % n
  {
    NextQuotient(k, n);
    NextIndex(k % n, n);
  }

  // ---------------------------------------------------------------------
  // Argument checks
  // ---------------------------------------------------------------------

  /** The checks at the head of shuffleTeams, in source order; None when all pass. */
  ghost function CheckArguments(players: seq<Player>, teams: seq<Team>, maxSize: Option<map<Team, int>>): (r: Option<ShuffleError>)
    ensures r.None? ==> |players| > 0 && |teams| > 0
  {
    if |players| == 0 then Some(EmptyPlayers)
    else if |teams| == 0 then Some(EmptyTeams)
    else if maxSize.None? then None
    else
      var caps := maxSize.value;
      if exists t :: t in caps && caps[t] <= 0 then Some(NonPositiveCap)
      else if |caps| != |teams| then Some(CapsMismatch)
      else if exists t :: t in caps && t !in teams then Some(CapsMismatch)
      else if MapSum(caps) < |players| then Some(OverCapacity)
      else None
  }

  /** The stream sum of the cap values (unbounded; see the README on overflow). */
  method SumValues(caps: map<Team, int>) returns (sum: int)
    ensures sum == MapSum(caps)
  {
    sum := 0;
    var rest := caps.Keys;
    while rest != {}
      invariant rest <= caps.Keys
      invariant sum + SumOver(caps, rest) == MapSum(caps)
      decreases rest
    {
      var t :| t in rest;
      SumOverRemove(caps, rest, t);
      sum := sum + caps[t];
      rest := rest - {t};
    }
  }

  /**
   * When the checks pass with a cap map, the map's keys are exactly the
   * teams, the team list has no repeats, every cap is positive and the caps
   * add up to at least the number of players.
   */
  lemma CheckedCaps(players: seq<Player>, teams: seq<Team>, caps: map<Team, int>)
    requires CheckArguments(players, teams, Some(caps)).None?
    ensures caps.Keys == set t | t in teams
    ensures NoDup(teams)
    ensures forall t :: t in caps ==> caps[t] > 0
    ensures MapSum(caps) >= |players|
  {
    var elems := set x | x in teams;
    ElementsCard(teams);
    assert caps.Keys <= elems;
    assert |caps.Keys| == |caps|;
    SubsetCard(caps.Keys, elems);
  }

  /** The checks in the order the source makes them. */
  method Check(players: seq<Player>, teams: seq<Team>, maxSize: Option<map<Team, int>>) returns (error: Option<ShuffleError>)
    ensures error == CheckArguments(players, teams, maxSize)
  {
    if |players| == 0 {
      return Some(EmptyPlayers);
    }
    if |teams| == 0 {
      return Some(EmptyTeams);
    }
    if maxSize.Some? {
      var caps := maxSize.value;
      if exists t :: t in caps && caps[t] <= 0 {
        return Some(NonPositiveCap);
      }
      if |caps| != |teams| {
        return Some(CapsMismatch);
      }
      if exists t :: t in caps && t !in teams {
        return Some(CapsMismatch);
      }
      var sum := SumValues(caps);
      if sum < |players| {
        return Some(OverCapacity);
      }
    }
    return None;
  }

  // ---------------------------------------------------------------------
  // Round-robin
  // ---------------------------------------------------------------------

  /** How many of the first p placements land on index i, when placement k goes to index k % n. */
  function RoundRobinCount(p: nat, n: nat, i: nat): nat
    requires n > 0
  {
    if p == 0 then 0 else RoundRobinCount(p - 1, n, i) + (if (p - 1) % n == i then 1 else 0)
  }

  /**
   * Without caps, index i of n receives p / n players, plus one when i is
   * below p % n: shares differ by at most one and the earlier teams get the
   * extra players.
   */
  lemma {:induction false} RoundRobinShares(p: nat, n: nat, i: nat)
    requires n > 0 && i < n
    ensures RoundRobinCount(p, n, i) == p / n + (if i < p % n then 1 else 0)
  {
    if p > 0 {
      var q := p - 1;
      RoundRobinShares(q, n, i);
      NextQuotient(q, n);
      var d, r := q / n, q % n;
      assert RoundRobinCount(p, n, i) == d + (if i < r then 1 else 0) + (if r == i then 1 else 0);
      if r == n - 1 {
        assert p / n == d + 1 && p % n == 0;
      } else {
        assert p / n == d && p % n == r + 1;
      }
    }
  }

  /** How many placements went to index i. */
  function Hits(placement: seq<nat>, i: nat): nat
  {
    if placement == [] then 0
    else Hits(placement[..|placement| - 1], i) + (if placement[|placement| - 1] == i then 1 else 0)
  }

  /** A round-robin placement hits every index as often as RoundRobinShares says. */
  lemma {:induction false} RoundRobinHits(placement: seq<nat>, n: nat, i: nat)
    requires n > 0 && i < n
    requires forall k :: 0 <= k < |placement| ==> placement[k] == k % n
    ensures Hits(placement, i) == |placement| / n + (if i < |placement| % n then 1 else 0)
  {
    RoundRobinPrefix(placement, n, i);
    RoundRobinShares(|placement|, n, i);
  }

  lemma {:induction false} RoundRobinPrefix(placement: seq<nat>, n: nat, i: nat)
    requires n > 0
    requires forall k :: 0 <= k < |placement| ==> placement[k] == k % n
    ensures Hits(placement, i) == RoundRobinCount(|placement|, n, i)
  {
    if placement != [] {
      RoundRobinPrefix(placement[..|placement| - 1], n, i);
    }
  }

  /** Appending the next cycle position keeps a placement round-robin. */
  lemma RoundRobinExtend(placement: seq<nat>, n: nat)
    requires n > 0
    requires forall k :: 0 <= k < |placement| ==> placement[k] == k % n
    ensures forall k :: 0 <= k < |placement| + 1 ==> (placement + [|placement| % n])[k] == k % n
    ensures (|placement| % n + 1) % n == (|placement| + 1) % n
  {
    ModStep(|placement|, n);
  }

  /** Number of placements (indices into the team list) that went to team t. */
  ghost function Received(teams: seq<Team>, placement: seq<nat>, t: Team): nat
    requires forall k :: 0 <= k < |placement| ==> placement[k] < |teams|
  {
    if placement == [] then 0
    else Received(teams, placement[..|placement| - 1], t) + (if teams[placement[|placement| - 1]] == t then 1 else 0)
  }

  /** With repeat-free teams, what team teams[i] received is what index i was hit. */
  lemma {:induction false} ReceivedHits(teams: seq<Team>, placement: seq<nat>, i: nat)
    requires NoDup(teams) && i < |teams|
    requires forall k :: 0 <= k < |placement| ==> placement[k] < |teams|
    ensures Received(teams, placement, teams[i]) == Hits(placement, i)
  {
    if placement != [] {
      ReceivedHits(teams, placement[..|placement| - 1], i);
    }
  }

  /** j lies on the way from `from` (inclusive) round the cycle to `upTo` (exclusive). */
  predicate CyclicallyBefore(from: nat, j: nat, upTo: nat)
  {
    if from <= upTo then from <= j < upTo else j >= from || j < upTo
  }

  /** Caps are left somewhere as long as fewer players than the caps' sum have been placed. */
  lemma CapacityLeft(teams: seq<Team>, caps: map<Team, int>, count: map<Team, int>, players: nat)
    requires caps.Keys == (set t | t in teams) && count.Keys == caps.Keys
    requires MapSum(count) < players <= MapSum(caps)
    ensures exists t :: t in teams && count[t] < caps[t]
  {
    if forall t :: t in teams ==> count[t] >= caps[t] {
      MapSumMonotone(count, caps);
      assert false;
    }
  }

  /**
   * The do-while of shuffleTeams: starting at teamIndex, the first team
   * round the cycle that is below its cap (without caps, teamIndex itself);
   * `next` is the index after it. Every team passed over is full.
   */
  method NextFree(teams: seq<Team>, maxSize: Option<map<Team, int>>, count: map<Team, int>, teamIndex: nat)
      returns (chosen: nat, next: nat)
    requires teamIndex < |teams|
    requires count.Keys == set t | t in teams
    requires maxSize.Some? ==> maxSize.value.Keys == count.Keys
    requires maxSize.Some? ==> exists t :: t in teams && count[t] < maxSize.value[t]
    ensures chosen < |teams| && next == (chosen + 1) % |teams|
    ensures maxSize.None? ==> chosen == teamIndex
    ensures maxSize.Some? ==> count[teams[chosen]] < maxSize.value[teams[chosen]]
    ensures maxSize.Some? ==> forall j :: 0 <= j < |teams| && CyclicallyBefore(teamIndex, j, chosen) ==>
                                count[teams[j]] >= maxSize.value[teams[j]]
  {
    var n := |teams|;
    chosen := teamIndex;
    next := (chosen + 1) % n;
    if maxSize.None? {
      return;
    }
    var caps := maxSize.value;
    ghost var t :| t in teams && count[t] < caps[t];
    ghost var target := IndexOf(teams, t);
    ghost var dist: nat := if target >= chosen then target - chosen else target + n - chosen;
    while count[teams[chosen]] >= caps[teams[chosen]]
      invariant chosen < n && next == (chosen + 1) % n
      invariant dist < n && (chosen + dist == target || chosen + dist == target + n)
      invariant forall j :: 0 <= j < n && CyclicallyBefore(teamIndex, j, chosen) ==> count[teams[j]] >= caps[teams[j]]
      invariant CyclicallyBefore(teamIndex, target, chosen) ==> false
      decreases dist
    {
      assert dist != 0;
      NextIndex(chosen, n);
      chosen := next;
      next := (chosen + 1) % n;
      dist := dist - 1;
    }
  }

  // ---------------------------------------------------------------------
  // shuffleTeams
  // ---------------------------------------------------------------------

  /**
   * shuffleTeams(players, teams, maxSize) with `shuffled` as the outcome of
   * the shuffle. On an argument error nothing changes. Otherwise placement
   * k (taking the shuffled copy from its end) goes to team teams[placement[k]]:
   * round-robin from index 0 without caps, never beyond a team's cap with
   * caps. The counts per team are returned too.
   */
  method ShuffleTeams(players: seq<Player>, teams: seq<Team>, maxSize: Option<map<Team, int>>, shuffled: seq<Player>)
      returns (error: Option<ShuffleError>, ghost placement: seq<nat>, ghost received: map<Team, int>)
    requires multiset(shuffled) == multiset(players)
    requires forall t :: t in teams ==> t.Valid()
    modifies teams
    ensures forall t :: t in teams ==> t.Valid()
    ensures error == CheckArguments(players, teams, maxSize)
    ensures error.Some? ==> forall t :: t in teams ==> t.players == old(t.players)
    ensures error.None? ==>
              |placement| == |shuffled|
              && (forall k :: 0 <= k < |placement| ==> placement[k] < |teams|)
              && (forall k :: 0 <= k < |placement| ==> shuffled[|shuffled| - 1 - k] in teams[placement[k]].players)
              && (forall t :: t in teams ==> t in received && received[t] == Received(teams, placement, t))
    ensures error.None? && maxSize.None? ==> forall k :: 0 <= k < |placement| ==> placement[k] == k % |teams|
    ensures error.None? && maxSize.Some? ==>
              maxSize.value.Keys == received.Keys && forall t :: t in received ==> received[t] <= maxSize.value[t]
    ensures forall t, q :: t in teams && q in old(t.players) ==> q in t.players
    ensures error.None? ==>
              forall t, q :: t in teams && q in t.players ==> q in old(t.players) || DealtTo(teams, shuffled, placement, t, q)
    ensures forall t :: t in teams ==> t.displayName == old(t.displayName)
  {
    placement := [];
    received := map[];
    error := Check(players, teams, maxSize);
    if error.Some? {
      return;
    }
    if maxSize.Some? {
      CheckedCaps(players, teams, maxSize.value);
    }
    assert |shuffled| == |players| by {
      assert |multiset(shuffled)| == |multiset(players)|;
    }
    placement, received := Distribute(teams, maxSize, shuffled);
  }

  /**
   * The distribution loop of shuffleTeams, once the checks have passed:
   * `shuffled` is emptied from its end, each player going to the team
   * NextFree picks.
   */
  method Distribute(teams: seq<Team>, maxSize: Option<map<Team, int>>, shuffled: seq<Player>)
      returns (ghost placement: seq<nat>, ghost received: map<Team, int>)
    requires |teams| > 0
    requires maxSize.Some? ==> maxSize.value.Keys == (set t | t in teams) && MapSum(maxSize.value) >= |shuffled|
    requires maxSize.Some? ==> forall t :: t in maxSize.value ==> maxSize.value[t] > 0
    requires forall t :: t in teams ==> t.Valid()
    modifies teams
    ensures forall t :: t in teams ==> t.Valid()
    ensures |placement| == |shuffled|
    ensures forall k :: 0 <= k < |placement| ==> placement[k] < |teams|
    ensures forall k :: 0 <= k < |placement| ==> shuffled[|shuffled| - 1 - k] in teams[placement[k]].players
    ensures received.Keys == set t | t in teams
    ensures forall t :: t in teams ==> received[t] == Received(teams, placement, t)
    ensures maxSize.None? ==> forall k :: 0 <= k < |placement| ==> placement[k] == k % |teams|
    ensures maxSize.Some? ==> forall t :: t in received ==> received[t] <= maxSize.value[t]
    ensures forall t, q :: t in teams && q in old(t.players) ==> q in t.players
    ensures forall t, q :: t in teams && q in t.players ==> q in old(t.players) || DealtTo(teams, shuffled, placement, t, q)
    ensures forall t :: t in teams ==> t.displayName == old(t.displayName)
  {
    placement := [];
    var count := map t | t in teams :: 0;
    CountedStart(teams, maxSize, count);
    var teamIndex := 0;
    var left := |shuffled|;
    ghost var start := Members(teams);
    while left > 0
      invariant 0 <= left <= |shuffled| && left + |placement| == |shuffled|
      invariant Counted(teams, maxSize, placement, count, teamIndex)
      invariant forall t :: t in teams ==> t.Valid() && t in start && start[t] == old(t.players)
      invariant Dealt(teams, shuffled, placement, start)
      invariant forall t :: t in teams ==> t.displayName == old(t.displayName)
    {
      var chosen, next := Deal(teams, maxSize, shuffled, start, placement, count, teamIndex, left);
      count := count[teams[chosen] := count[teams[chosen]] + 1];
      placement := placement + [chosen];
      teamIndex := next;
      left := left - 1;
    }
    received := count;
  }

  /** Each team's players, as a map from the team. */
  ghost function Members(teams: seq<Team>): (r: map<Team, seq<Player>>)
    reads teams
    ensures forall t :: t in teams ==> t in r && r[t] == t.players
  {
    map t | t in teams :: t.players
  }

  /** What the distribution loop keeps about the teams' players, read from the heap. */
  ghost predicate Dealt(teams: seq<Team>, shuffled: seq<Player>, placement: seq<nat>, start: map<Team, seq<Player>>)
    reads teams
  {
    DealtOver(teams, shuffled, placement, start, Members(teams))
  }

  /**
   * What the distribution loop keeps about the teams' players `now`, against
   * their players `start` before it: each placement's player is in its team,
   * no starting member is lost, and every member is a starting one or was dealt.
   */
  ghost predicate DealtOver(teams: seq<Team>, shuffled: seq<Player>, placement: seq<nat>, start: map<Team, seq<Player>>,
                            now: map<Team, seq<Player>>)
  {
    && (forall t :: t in teams ==> t in start && t in now)
    && |placement| <= |shuffled|
    && (forall k :: 0 <= k < |placement| ==> placement[k] < |teams| && shuffled[|shuffled| - 1 - k] in now[teams[placement[k]]])
    && (forall t, q :: t in teams && q in start[t] ==> q in now[t])
    && (forall t, q :: t in teams && q in now[t] ==> q in start[t] || DealtTo(teams, shuffled, placement, t, q))
  }

  /**
   * One pass of the distribution loop: NextFree picks the team for the next
   * player from the end of `shuffled`, which is then added to it.
   */
  method Deal(teams: seq<Team>, maxSize: Option<map<Team, int>>, shuffled: seq<Player>, ghost start: map<Team, seq<Player>>,
              ghost placement: seq<nat>, count: map<Team, int>, teamIndex: nat, left: nat)
      returns (chosen: nat, next: nat)
    requires 0 < left && left + |placement| == |shuffled|
    requires maxSize.Some? ==> maxSize.value.Keys == (set t | t in teams) && MapSum(maxSize.value) >= |shuffled|
    requires Counted(teams, maxSize, placement, count, teamIndex)
    requires forall t :: t in teams ==> t.Valid()
    requires Dealt(teams, shuffled, placement, start)
    modifies teams
    ensures chosen < |teams|
    ensures Counted(teams, maxSize, placement + [chosen], count[teams[chosen] := count[teams[chosen]] + 1], next)
    ensures forall t :: t in teams ==> t.Valid()
    ensures Dealt(teams, shuffled, placement + [chosen], start)
    ensures forall t :: t in teams ==> t.displayName == old(t.displayName)
  {
    if maxSize.Some? {
      CapacityLeft(teams, maxSize.value, count, |shuffled|);
    }
    chosen, next := NextFree(teams, maxSize, count, teamIndex);
    CountedStep(teams, maxSize, placement, count, teamIndex, chosen, next);
    PlaceDealt(teams, shuffled, start, placement, chosen, left);
  }

  /**
   * The addPlayer of one pass: the next player from the end of `shuffled`
   * joins the chosen team, no other team changes, and Dealt is kept.
   */
  method PlaceDealt(teams: seq<Team>, shuffled: seq<Player>, ghost start: map<Team, seq<Player>>,
                    ghost placement: seq<nat>, chosen: nat, left: nat)
    requires 0 < left && left + |placement| == |shuffled| && chosen < |teams|
    requires forall t :: t in teams ==> t.Valid()
    requires Dealt(teams, shuffled, placement, start)
    modifies teams[chosen]
    ensures forall t :: t in teams ==> t.Valid()
    ensures teams[chosen].players == old(teams[chosen].players) + (if shuffled[left - 1] in old(teams[chosen].players) then [] else [shuffled[left - 1]])
    ensures forall t :: t in teams && t != teams[chosen] ==> t.players == old(t.players)
    ensures forall t :: t in teams ==> t.displayName == old(t.displayName)
    ensures Dealt(teams, shuffled, placement + [chosen], start)
  {
    ghost var before := Members(teams);
    PlaceOne(teams, teams[chosen], shuffled[left - 1]);
    DealtPlaced(teams, shuffled, placement, start, before, Members(teams), chosen, left);
  }

  /**
   * One placement keeps DealtOver: the teams' players go from `before` to
   * `after` by the chosen team gaining the next player from the end of
   * `shuffled`, with no member lost.
   */
  lemma {:induction false} DealtPlaced(teams: seq<Team>, shuffled: seq<Player>, placement: seq<nat>, start: map<Team, seq<Player>>,
                                       before: map<Team, seq<Player>>, after: map<Team, seq<Player>>, chosen: nat, left: nat)
    requires 0 < left && left + |placement| == |shuffled| && chosen < |teams|
    requires DealtOver(teams, shuffled, placement, start, before)
    requires forall t :: t in teams ==> t in after
    requires forall t, q :: t in teams && q in before[t] ==> q in after[t]
    requires shuffled[left - 1] in after[teams[chosen]]
    requires forall t, q :: t in teams && q in after[t] ==> q in before[t] || (t == teams[chosen] && q == shuffled[left - 1])
    ensures DealtOver(teams, shuffled, placement + [chosen], start, after)
  {
    var placement' := placement + [chosen];
    forall k | 0 <= k < |placement'|
      ensures placement'[k] < |teams| && shuffled[|shuffled| - 1 - k] in after[teams[placement'[k]]]
    {
      if k < |placement| {
        assert placement'[k] == placement[k];
      }
    }
    forall t, q | t in teams && q in after[t]
      ensures q in start[t] || DealtTo(teams, shuffled, placement', t, q)
    {
      if q in before[t] {
        if q !in start[t] {
          DealtExtend(teams, shuffled, placement, chosen, t, q);
        }
      } else {
        DealtNext(teams, shuffled, placement, chosen);
      }
    }
  }

  /** Player q was dealt to team t: some placement k sent the k-th player from the end of `shuffled` to t. */
  ghost predicate DealtTo(teams: seq<Team>, shuffled: seq<Player>, placement: seq<nat>, t: Team, q: Player)
  {
    exists k :: 0 <= k < |placement| && k < |shuffled| && placement[k] < |teams|
                && teams[placement[k]] == t && shuffled[|shuffled| - 1 - k] == q
  }

  /** A player dealt before one more placement is still dealt after it. */
  lemma DealtExtend(teams: seq<Team>, shuffled: seq<Player>, placement: seq<nat>, chosen: nat, t: Team, q: Player)
    requires DealtTo(teams, shuffled, placement, t, q)
    ensures DealtTo(teams, shuffled, placement + [chosen], t, q)
  {
    var k :| 0 <= k < |placement| && k < |shuffled| && placement[k] < |teams|
             && teams[placement[k]] == t && shuffled[|shuffled| - 1 - k] == q;
    assert (placement + [chosen])[k] == placement[k];
  }

  /** The next placement deals the next player from the end of `shuffled` to the chosen team. */
  lemma DealtNext(teams: seq<Team>, shuffled: seq<Player>, placement: seq<nat>, chosen: nat)
    requires |placement| < |shuffled| && chosen < |teams|
    ensures DealtTo(teams, shuffled, placement + [chosen], teams[chosen], shuffled[|shuffled| - 1 - |placement|])
  {
    assert (placement + [chosen])[|placement|] == chosen;
  }

  /**
   * The bookkeeping of the distribution loop: `count` holds what each team
   * received so far and adds up to the number of placements; without caps
   * placement k went to index k % n and teamIndex is the next position;
   * with caps no team is beyond its cap.
   */
  ghost predicate Counted(teams: seq<Team>, maxSize: Option<map<Team, int>>, placement: seq<nat>, count: map<Team, int>, teamIndex: nat)
  {
    var n := |teams|;
    && 0 <= teamIndex < n
    && (forall k :: 0 <= k < |placement| ==> placement[k] < n)
    && count.Keys == (set t | t in teams)
    && (forall t :: t in teams ==> count[t] == Received(teams, placement, t))
    && MapSum(count) == |placement|
    && (maxSize.None? ==> teamIndex == |placement| % n && forall k :: 0 <= k < |placement| ==> placement[k] == k % n)
    && (maxSize.Some? ==> maxSize.value.Keys == count.Keys && forall t :: t in teams ==> count[t] <= maxSize.value[t])
  }

  /** Before the first placement every team has received nothing. */
  lemma CountedStart(teams: seq<Team>, maxSize: Option<map<Team, int>>, count: map<Team, int>)
    requires |teams| > 0
    requires count == map t | t in teams :: 0
    requires maxSize.Some? ==> maxSize.value.Keys == count.Keys && forall t :: t in maxSize.value ==> maxSize.value[t] > 0
    ensures Counted(teams, maxSize, [], count, 0)
  {
    SumOverZero(count, count.Keys);
  }

  /** One placement, to the team NextFree picked, keeps the bookkeeping. */
  lemma CountedStep(teams: seq<Team>, maxSize: Option<map<Team, int>>, placement: seq<nat>, count: map<Team, int>,
                    teamIndex: nat, chosen: nat, next: nat)
    requires Counted(teams, maxSize, placement, count, teamIndex)
    requires chosen < |teams| && next == (chosen + 1) % |teams|
    requires maxSize.None? ==> chosen == teamIndex
    requires maxSize.Some? ==> count[teams[chosen]] < maxSize.value[teams[chosen]]
    ensures Counted(teams, maxSize, placement + [chosen], count[teams[chosen] := count[teams[chosen]] + 1], next)
  {
    CountStep(teams, placement, count, chosen);
    if maxSize.None? {
      RoundRobinExtend(placement, |teams|);
    }
  }

  /** The per-team counts after one more placement, to chosen. */
  lemma CountStep(teams: seq<Team>, placement: seq<nat>, count: map<Team, int>, chosen: nat)
    requires chosen < |teams| && forall k :: 0 <= k < |placement| ==> placement[k] < |teams|
    requires count.Keys == set t | t in teams
    requires forall t :: t in teams ==> count[t] == Received(teams, placement, t)
    ensures var team := teams[chosen];
            var count' := count[team := count[team] + 1];
            && count'.Keys == count.Keys
            && (forall t :: t in teams ==> count'[t] == Received(teams, placement + [chosen], t))
            && MapSum(count') == MapSum(count) + 1
  {
    var team := teams[chosen];
    forall t | t in teams
      ensures Received(teams, placement + [chosen], t) == Received(teams, placement, t) + (if t == team then 1 else 0)
    {
      assert (placement + [chosen])[..|placement|] == placement;
    }
    MapSumIncrement(count, team);
  }

  /** team.addPlayer inside the distribution, as seen from the whole team list. */
  method PlaceOne(teams: seq<Team>, team: Team, player: Player)
    requires team in teams && forall t :: t in teams ==> t.Valid()
    modifies team
    ensures forall t :: t in teams ==> t.Valid()
    ensures team.players == if player in old(team.players) then old(team.players) else old(team.players) + [player]
    ensures forall t :: t in teams && t != team ==> t.players == old(t.players)
    ensures forall t :: t in teams ==> t.displayName == old(t.displayName)
  {
    var _ := team.AddPlayer(player);
  }
}
