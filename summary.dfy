/** The summary cards at the top of the dashboard: total clients, frequent
    clients and rewards earned. */
module Summary {
  import opened Clients

  /** "Clientas Frecuentes": how many clients have at least ten visits,
      counted as the list is walked from its first element on. */
  function FrequentCount(clients: seq<Cliente>): (n: nat)
    ensures n <= |clients|
    ensures n == 0 <==> forall c :: c in clients ==> c.visits < 10
  {
    if clients == [] then 0
    else
      var init, last := clients[..|clients| - 1], clients[|clients| - 1];
      assert forall c :: c in clients ==> c in init || c == last;
      FrequentCount(init) + (if last.visits >= 10 then 1 else 0)
  }

  /** The positions of frequent clients in the list. */
  ghost function FrequentPositions(clients: seq<Cliente>): set<int> {
    set i | 0 <= i < |clients| && clients[i].visits >= 10
  }

  /** The frequent-client count is the number of positions holding a client
      with ten or more visits. */
  lemma {:induction false} FrequentCountIsPositionCount(clients: seq<Cliente>)
    ensures FrequentCount(clients) == |FrequentPositions(clients)|
  {
    if clients != [] {
      var n := |clients| - 1;
      var init := clients[..n];
      FrequentCountIsPositionCount(init);
      assert forall i :: 0 <= i < n ==> init[i] == clients[i];
      if clients[n].visits >= 10 {
        assert FrequentPositions(clients) == FrequentPositions(init) + {n};
      } else {
        assert FrequentPositions(clients) == FrequentPositions(init);
      }
    }
  }

  /** Counting over two lists joined is the sum of the two counts. */
  lemma {:induction false} FrequentCountAppend(a: seq<Cliente>, b: seq<Cliente>)
    ensures FrequentCount(a + b) == FrequentCount(a) + FrequentCount(b)
    decreases |b|
  {
    if b == [] {
      assert a + b == a;
    } else {
      var init := b[..|b| - 1];
      assert (a + b)[..|a + b| - 1] == a + init;
      FrequentCountAppend(a, init);
    }
  }

  /** Every client is frequent exactly when the frequent count equals the
      total count. */
  lemma {:induction false} AllFrequent(clients: seq<Cliente>)
    ensures FrequentCount(clients) == |clients| <==> forall c :: c in clients ==> c.visits >= 10
  {
    if clients != [] {
      var init := clients[..|clients| - 1];
      assert forall c :: c in clients ==> c in init || c == clients[|clients| - 1];
      AllFrequent(init);
    }
  }

  /** "Recompensas Ganadas": reduce over the list, adding
      Math.floor(visits / 5) for each client. Dafny's division by a positive
      divisor rounds down, so it is Math.floor for negative counts too. */
  function RewardsEarned(clients: seq<Cliente>): int {
    if clients == [] then 0
    else RewardsEarned(clients[..|clients| - 1]) + clients[|clients| - 1].visits / 5
  }

  /** The sum of all visit counts. */
  function SumVisits(clients: seq<Cliente>): int {
    if clients == [] then 0
    else SumVisits(clients[..|clients| - 1]) + clients[|clients| - 1].visits
  }

  /** Appending a client adds exactly that client's completed blocks of five
      visits. */
  lemma AppendAddsRewards(clients: seq<Cliente>, c: Cliente)
    ensures RewardsEarned(clients + [c]) == RewardsEarned(clients) + c.visits / 5
    ensures SumVisits(clients + [c]) == SumVisits(clients) + c.visits
  {
    assert (clients + [c])[..|clients|] == clients;
  }

  /** Rewards over two lists joined is the sum of the two totals. */
  lemma {:induction false} RewardsEarnedAppend(a: seq<Cliente>, b: seq<Cliente>)
    ensures RewardsEarned(a + b) == RewardsEarned(a) + RewardsEarned(b)
    decreases |b|
  {
    if b == [] {
      assert a + b == a;
    } else {
      var init, last := b[..|b| - 1], b[|b| - 1];
      assert b == init + [last];
      assert a + b == (a + init) + [last];
      RewardsEarnedAppend(a, init);
      AppendAddsRewards(a + init, last);
      AppendAddsRewards(init, last);
    }
  }

  /** With non-negative visit counts the rewards are never negative, never
      more than a fifth of all visits, and each client loses at most four
      visits to rounding down. */
  lemma {:induction false} RewardsEarnedBounds(clients: seq<Cliente>)
    requires forall c :: c in clients ==> c.visits >= 0
    ensures 0 <= RewardsEarned(clients)
    ensures 5 * RewardsEarned(clients) <= SumVisits(clients)
    ensures SumVisits(clients) <= 5 * RewardsEarned(clients) + 4 * |clients|
    ensures RewardsEarned(clients) <= SumVisits(clients) / 5
  {
    if clients != [] {
      var init := clients[..|clients| - 1];
      assert forall c :: c in init ==> c in clients;
      RewardsEarnedBounds(init);
      var v := clients[|clients| - 1].visits;
      assert 5 * (v / 5) <= v <= 5 * (v / 5) + 4;
    }
  }

  /** The four numbers the summary cards show, "Visitas Hoy" aside. */
  datatype DashboardSummary = DashboardSummary(total: nat, frequent: nat, rewardsEarned: int)

  /** The summary cards for a client list. */
  function Summarize(clients: seq<Cliente>): (s: DashboardSummary)
    ensures s.total == |clients|
    ensures s.frequent <= s.total
    ensures s.frequent == s.total <==> forall c :: c in clients ==> c.visits >= 10
  {
    AllFrequent(clients);
    DashboardSummary(|clients|, FrequentCount(clients), RewardsEarned(clients))
  }
}
