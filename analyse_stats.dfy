/**
 * The per-agent statistics of the agent analysis: task counts by status, activity counts by type,
 * the most recent assignment and the team name shown next to each agent.
 */
module AnalyseStats {
  import opened Js
  import opened Seqs
  import opened Sorting
  import opened Schema

  /** How often `v` occurs in `xs`. */
  function Occurrences<K(==)>(xs: seq<K>, v: K): (r: nat)
    ensures r <= |xs|
    ensures r > 0 <==> v in xs
  {
    if xs == [] then 0
    else
      var init := xs[..|xs| - 1];
      assert xs == init + [xs[|xs| - 1]];
      Occurrences(init, v) + (if xs[|xs| - 1] == v then 1 else 0)
  }

  /** The sum of the counts stored under `keys`. */
  function SumOver<K>(keys: seq<K>, counts: map<K, nat>): nat
    requires forall k :: k in keys ==> k in counts
  {
    if keys == [] then 0
    else SumOver(keys[..|keys| - 1], counts) + counts[keys[|keys| - 1]]
  }

  lemma {:induction false} SumOverIgnoresOtherKeys<K>(keys: seq<K>, counts: map<K, nat>, k: K, c: nat)
    requires forall j :: j in keys ==> j in counts
    requires k !in keys
    ensures SumOver(keys, counts[k := c]) == SumOver(keys, counts)
  {
    if keys != [] {
      SumOverIgnoresOtherKeys(keys[..|keys| - 1], counts, k, c);
    }
  }

  lemma {:induction false} SumOverIncrement<K>(keys: seq<K>, counts: map<K, nat>, k: K)
    requires forall j :: j in keys ==> j in counts
    requires Distinct(keys) && k in keys
    ensures SumOver(keys, counts[k := counts[k] + 1]) == SumOver(keys, counts) + 1
  {
    var init := keys[..|keys| - 1];
    var last := keys[|keys| - 1];
    assert keys == init + [last];
    if last == k {
      assert k !in init by {
        forall i | 0 <= i < |init| ensures init[i] != k {
          assert keys[i] != keys[|keys| - 1];
        }
      }
      SumOverIgnoresOtherKeys(init, counts, k, counts[k] + 1);
    } else {
      assert Distinct(init) by {
        forall i, j | 0 <= i < j < |init| ensures init[i] != init[j] {
          assert init[i] == keys[i] && init[j] == keys[j];
        }
      }
      SumOverIncrement(init, counts, k);
    }
  }

  /** One more value: how `Dedup` and `Occurrences` grow. */
  lemma DedupSnoc<K(!new)>(xs: seq<K>, s: K)
    ensures Dedup(xs + [s]) == if s in Dedup(xs) then Dedup(xs) else Dedup(xs) + [s]
  {
    assert (xs + [s])[..|xs|] == xs;
  }

  lemma OccurrencesSnoc<K>(xs: seq<K>, s: K, k: K)
    ensures Occurrences(xs + [s], k) == Occurrences(xs, k) + (if s == k then 1 else 0)
  {
    assert (xs + [s])[..|xs|] == xs;
  }

  /** The status record as the values it should hold: every status that occurs, with its count. */
  function CountsOf<K(!new)>(xs: seq<K>): (r: map<K, nat>)
    ensures forall k :: k in r <==> k in xs
  {
    map k | k in xs :: Occurrences(xs, k)
  }

  lemma CountsOfSnoc<K(!new)>(xs: seq<K>, s: K)
    ensures CountsOf(xs + [s]) == CountsOf(xs)[s := (if s in CountsOf(xs) then CountsOf(xs)[s] else 0) + 1]
  {
    var c := CountsOf(xs);
    var a := CountsOf(xs + [s]);
    var b := c[s := (if s in c then c[s] else 0) + 1];
    forall k ensures k in a <==> k in b {
      assert k in xs + [s] <==> k in xs || k == s;
    }
    forall k | k in a ensures a[k] == b[k] {
      OccurrencesSnoc(xs, s, k);
      assert a[k] == Occurrences(xs, k) + (if s == k then 1 else 0);
      if k == s {
        assert (if s in c then c[s] else 0) == Occurrences(xs, s);
      } else {
        assert k in xs;
        assert b[k] == c[k] == Occurrences(xs, k);
      }
    }
  }

  /** One more status: how the key order, the record and the untouched count grow. */
  lemma TallyStep<K(!new)>(seen: seq<K>, s: K, untouchedStatus: K)
    ensures var counts := CountsOf(seen);
      var previous := if s in counts then counts[s] else 0;
      && Dedup(seen + [s]) == (if s in counts then Dedup(seen) else Dedup(seen) + [s])
      && CountsOf(seen + [s]) == counts[s := previous + 1]
      && Occurrences(seen + [s], untouchedStatus)
         == Occurrences(seen, untouchedStatus) + (if s == untouchedStatus then 1 else 0)
  {
    DedupSnoc(seen, s);
    OccurrencesSnoc(seen, s, untouchedStatus);
    CountsOfSnoc(seen, s);
    assert s in CountsOf(seen) <==> s in seen;
    assert s in Dedup(seen) <==> s in seen;
  }

  /** The values of `statusBreakdown` add up to the agent's number of tasks. */
  lemma {:induction false} BreakdownSumsToTotal<K(!new)>(xs: seq<K>)
    ensures forall k :: k in Dedup(xs) ==> k in CountsOf(xs)
    ensures SumOver(Dedup(xs), CountsOf(xs)) == |xs|
  {
    if xs != [] {
      var init := xs[..|xs| - 1];
      var s := xs[|xs| - 1];
      assert xs == init + [s];
      BreakdownSumsToTotal(init);
      DedupSnoc(init, s);
      CountsOfSnoc(init, s);
      var keys := Dedup(init);
      var counts := CountsOf(init);
      if s in counts {
        SumOverIncrement(keys, counts, s);
      } else {
        SumOverIgnoresOtherKeys(keys, counts, s, 1);
        assert (keys + [s])[..|keys|] == keys;
      }
    }
  }

  /** The `forEach` over an agent's tasks that fills `statusBreakdown[task.status] =
      (statusBreakdown[task.status] || 0) + 1` and counts the tasks whose status is `untouchedStatus`
      ("Nicht angefasst"). The record is kept as the order in which its keys were added (`keys`) and
      its values (`counts`): every status once, in order of first appearance, with the number of tasks
      in that status. The order in which the record lists its keys is `OwnKeyOrder(keys)`. */
  method StatusTally<K(!new)>(statuses: seq<K>, untouchedStatus: K)
    returns (keys: seq<K>, counts: map<K, nat>, untouched: nat)
    ensures keys == Dedup(statuses)
    ensures counts == CountsOf(statuses)
    ensures untouched == Occurrences(statuses, untouchedStatus)
  {
    keys, counts, untouched := [], map[], 0;
    var i := 0;
    while i < |statuses|
      invariant 0 <= i <= |statuses|
      invariant keys == Dedup(statuses[..i])
      invariant counts == CountsOf(statuses[..i])
      invariant untouched == Occurrences(statuses[..i], untouchedStatus)
    {
      var s := statuses[i];
      assert statuses[..i + 1] == statuses[..i] + [s];
      TallyStep(statuses[..i], s, untouchedStatus);
      var previous := if s in counts then counts[s] else 0;
      if s !in counts {
        keys := keys + [s];
      }
      counts := counts[s := previous + 1];
      if s == untouchedStatus {
        untouched := untouched + 1;
      }
      i := i + 1;
    }
    assert statuses[..i] == statuses;
  }

  // ---------------------------------------------------------------- key order of a plain object

  /** A canonical array index: "0", or decimal digits without a leading zero, of value below
      2^32 - 1. An object lists such keys before all its other string keys. */
  predicate IsArrayIndex(k: string) {
    && k != []
    && (forall i :: 0 <= i < |k| ==> IsDigit(k[i]))
    && (k[0] == '0' ==> |k| == 1)
    && DigitsValue(k) < 0xFFFF_FFFF
  }

  predicate NotArrayIndex(k: string) { !IsArrayIndex(k) }

  /** The value of an array index (0 for any other key). */
  function IndexValue(k: string): nat {
    if IsArrayIndex(k) then DigitsValue(k) else 0
  }

  predicate IndexLe(a: string, b: string) { IndexValue(a) <= IndexValue(b) }

  lemma IndexOrder()
    ensures TotalPreorder(IndexLe)
  {
  }

  /** The rows `p` keeps and the rows its negation `q` keeps make up all of `xs`. */
  lemma {:induction false} FilterPartition<T(!new)>(xs: seq<T>, p: T -> bool, q: T -> bool)
    requires forall x :: x in xs ==> (q(x) <==> !p(x))
    ensures multiset(Filter(xs, p)) + multiset(Filter(xs, q)) == multiset(xs)
  {
    if xs != [] {
      var x, t := xs[0], xs[1..];
      FilterPartition(t, p, q);
      assert multiset(xs) == multiset{x} + multiset(t) by { assert xs == [x] + t; }
      if p(x) {
        assert Filter(xs, p) == [x] + Filter(t, p) && Filter(xs, q) == Filter(t, q);
      } else {
        assert Filter(xs, p) == Filter(t, p) && Filter(xs, q) == [x] + Filter(t, q);
      }
    }
  }

  /** The order in which a plain object's own string keys are listed (`Object.keys`, `JSON.stringify`)
      when they were added in the order `inserted`: array indices first, ascending by value, then the
      other keys in the order they were added. */
  function OwnKeyOrder(inserted: seq<string>): (r: seq<string>)
    ensures multiset(r) == multiset(inserted)
  {
    FilterPartition(inserted, IsArrayIndex, NotArrayIndex);
    SortBy(Filter(inserted, IsArrayIndex), IndexLe) + Filter(inserted, NotArrayIndex)
  }

  /** Array indices come first, in ascending order of their values. */
  lemma OwnKeyOrderIndicesFirst(inserted: seq<string>)
    ensures var r := OwnKeyOrder(inserted);
      && (forall i, j :: 0 <= i < j < |r| && NotArrayIndex(r[i]) ==> NotArrayIndex(r[j]))
      && (forall i, j :: 0 <= i < j < |r| && IsArrayIndex(r[j]) ==> IndexValue(r[i]) <= IndexValue(r[j]))
  {
    var indices := Filter(inserted, IsArrayIndex);
    var sorted := SortBy(indices, IndexLe);
    var others := Filter(inserted, NotArrayIndex);
    IndexOrder();
    SortByFacts(indices, IndexLe);
    var r := sorted + others;
    assert r == OwnKeyOrder(inserted);
    assert forall k :: 0 <= k < |sorted| ==> IsArrayIndex(sorted[k]) by {
      forall k | 0 <= k < |sorted| ensures IsArrayIndex(sorted[k]) {
        assert sorted[k] in multiset(sorted);
      }
    }
    assert forall k :: 0 <= k < |others| ==> NotArrayIndex(others[k]) by {
      forall k | 0 <= k < |others| ensures NotArrayIndex(others[k]) {
        assert others[k] in others;
      }
    }
    assert forall i, j :: 0 <= i < j < |sorted| ==> IndexLe(sorted[i], sorted[j]);
  }

  /** The keys that are not array indices keep the order in which they were added. */
  lemma OwnKeyOrderKeepsOthers(inserted: seq<string>)
    ensures Filter(OwnKeyOrder(inserted), NotArrayIndex) == Filter(inserted, NotArrayIndex)
  {
    var indices := Filter(inserted, IsArrayIndex);
    var sorted := SortBy(indices, IndexLe);
    var others := Filter(inserted, NotArrayIndex);
    FilterAppend(sorted, others, NotArrayIndex);
    assert forall x :: x in sorted ==> !NotArrayIndex(x) by {
      forall x | x in sorted ensures !NotArrayIndex(x) {
        assert x in multiset(sorted);
      }
    }
    FilterNone(sorted, NotArrayIndex);
    FilterFilter(inserted, NotArrayIndex, NotArrayIndex, NotArrayIndex);
  }

  /** Without keys that read as array indices, the keys are listed in the order they were added. */
  lemma OwnKeyOrderWithoutIndices(inserted: seq<string>)
    requires forall k :: k in inserted ==> NotArrayIndex(k)
    ensures OwnKeyOrder(inserted) == inserted
  {
    FilterNone(inserted, IsArrayIndex);
    FilterAll(inserted, NotArrayIndex);
    assert SortBy([], IndexLe) == [];
  }

  /** Statuses "Offen" then "2": the record lists "2" first. */
  lemma IndexKeyListedFirst()
    ensures OwnKeyOrder(["Offen", "2"]) == ["2", "Offen"]
  {
  }

  /** `activitiesByType`: the record starts with the four types at 0. */
  datatype TypeCounts = TypeCounts(call: nat, email: nat, meeting: nat, note: nat)

  /** The `forEach` that bumps `activitiesByType[type]` for the four known types (`call`, `email`,
      `meeting` and `note` name them) and ignores every other type. */
  method TypeTally<K(==)>(types: seq<K>, call: K, email: K, meeting: K, note: K) returns (c: TypeCounts)
    requires call != email && call != meeting && call != note
    requires email != meeting && email != note && meeting != note
    ensures c.call == Occurrences(types, call)
    ensures c.email == Occurrences(types, email)
    ensures c.meeting == Occurrences(types, meeting)
    ensures c.note == Occurrences(types, note)
    ensures c.call + c.email + c.meeting + c.note <= |types|
  {
    c := TypeCounts(0, 0, 0, 0);
    var i := 0;
    while i < |types|
      invariant 0 <= i <= |types|
      invariant c.call == Occurrences(types[..i], call)
      invariant c.email == Occurrences(types[..i], email)
      invariant c.meeting == Occurrences(types[..i], meeting)
      invariant c.note == Occurrences(types[..i], note)
      invariant c.call + c.email + c.meeting + c.note <= i
    {
      var t := types[i];
      assert types[..i + 1] == types[..i] + [t];
      assert types[..i + 1][..i] == types[..i];
      if t == call {
        c := c.(call := c.call + 1);
      } else if t == email {
        c := c.(email := c.email + 1);
      } else if t == meeting {
        c := c.(meeting := c.meeting + 1);
      } else if t == note {
        c := c.(note := c.note + 1);
      }
      i := i + 1;
    }
    assert types[..i] == types;
  }

  /** `rest.reduce((latest, current) => current.assignedAt > latest.assignedAt ? current : latest, latest)`:
      a later row replaces the running choice only when strictly newer, so the first of the newest
      rows wins. */
  function Newest(latest: Assignment, rest: seq<Assignment>): (r: Assignment)
    ensures r == latest || r in rest
    ensures r.assignedAt >= latest.assignedAt
    ensures forall a :: a in rest ==> a.assignedAt <= r.assignedAt
    decreases |rest|
  {
    if rest == [] then latest
    else
      var next := if rest[0].assignedAt > latest.assignedAt then rest[0] else latest;
      assert forall a :: a in rest <==> a == rest[0] || a in rest[1..];
      Newest(next, rest[1..])
  }

  /** `recentAssignment`: the newest `assignedAt` among the agent's assignments, or null without any. */
  function RecentAssignment(rows: seq<Assignment>): (r: Option<int>)
    ensures r.None? <==> rows == []
    ensures r.Some? ==> exists a :: a in rows && a.assignedAt == r.value
    ensures r.Some? ==> forall a :: a in rows ==> a.assignedAt <= r.value
  {
    if rows == [] then None
    else
      var n := Newest(rows[0], rows[1..]);
      assert forall a :: a in rows <==> a == rows[0] || a in rows[1..];
      Some(n.assignedAt)
  }

  /** `team?.name`: the name of the team with id `teamId`, if there is one. */
  function TeamNameById(teams: seq<Team>, teamId: int): (r: Option<string>)
    ensures r.Some? <==> exists t :: t in teams && t.id == teamId
    ensures r.Some? ==> exists t :: t in teams && t.id == teamId && t.name == r.value
  {
    if teams == [] then None
    else if teams[0].id == teamId then Some(teams[0].name)
    else
      var rest := TeamNameById(teams[1..], teamId);
      assert forall t :: t in teams <==> t == teams[0] || t in teams[1..];
      rest
  }

  /** `new Map(memberships.map(tm => [tm.userId, tm.team?.name || null])).get(agentId) || null`: the
      last membership of the agent decides, and an unknown team or an empty name gives null. */
  function TeamNameOf(memberships: seq<TeamMember>, teams: seq<Team>, agentId: string): (r: Option<string>)
    ensures (forall m :: m in memberships ==> m.userId != agentId) ==> r.None?
    ensures r.Some? ==> (r.value != "" &&
      exists m :: m in memberships && m.userId == agentId && TeamNameById(teams, m.teamId) == r)
  {
    if memberships == [] then None
    else
      var init := memberships[..|memberships| - 1];
      var last := memberships[|memberships| - 1];
      assert memberships == init + [last];
      if last.userId == agentId then
        var name := TeamNameById(teams, last.teamId);
        if name.Some? && name.value != "" then name else None
      else TeamNameOf(init, teams, agentId)
  }

  /** The teams an agent with several memberships is shown under: only the last one counts. */
  lemma LastMembershipWins(memberships: seq<TeamMember>, teams: seq<Team>, m: TeamMember)
    ensures TeamNameOf(memberships + [m], teams, m.userId)
         == if TeamNameById(teams, m.teamId) == Some("") then None else TeamNameById(teams, m.teamId)
  {
    assert (memberships + [m])[..|memberships|] == memberships;
  }
}
