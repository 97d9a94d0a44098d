/** The client records the dashboard lists, and its search filter. */
module Clients {
  import opened Text

  /** One client as the dashboard receives it from the server. lastVisit is
      kept as the server's timestamp text; it is only formatted for display. */
  datatype Cliente = Cliente(
    id: string,
    name: string,
    email: string,
    phone: string,
    visits: int,
    lastVisit: string,
    passSerialNumber: string)

  /** The search predicate: name or email contains the term ignoring case,
      or the phone contains the term exactly as typed. */
  predicate Matches(c: Cliente, term: string) {
    || Includes(ToLower(c.name), ToLower(term))
    || Includes(ToLower(c.email), ToLower(term))
    || Includes(c.phone, term)
  }

  /** filteredClients: the clients that match the search term, in list
      order. */
  function FilterClients(clients: seq<Cliente>, term: string): (r: seq<Cliente>)
    ensures |r| <= |clients|
    ensures forall c :: c in r ==> c in clients && Matches(c, term)
  {
    if clients == [] then []
    else if Matches(clients[0], term) then [clients[0]] + FilterClients(clients[1..], term)
    else FilterClients(clients[1..], term)
  }

  /** No matching client is dropped. */
  lemma {:induction false} FilterKeepsMatches(clients: seq<Cliente>, term: string, c: Cliente)
    requires c in clients && Matches(c, term)
    ensures c in FilterClients(clients, term)
  {
    if clients[0] != c {
      FilterKeepsMatches(clients[1..], term, c);
    }
  }

  /** The positions of clients that are kept: strictly increasing, and r[k]
      is the client at position idx[k]. */
  ghost predicate KeptAt(r: seq<Cliente>, clients: seq<Cliente>, idx: seq<int>) {
    && |idx| == |r|
    && (forall k :: 0 <= k < |idx| ==> 0 <= idx[k] < |clients| && r[k] == clients[idx[k]])
    && (forall k, l :: 0 <= k < l < |idx| ==> idx[k] < idx[l])
  }

  /** Shifting kept positions past one more client at the front. */
  lemma KeptAtCons(r: seq<Cliente>, tail: seq<Cliente>, c: Cliente, rest: seq<int>)
    returns (shifted: seq<int>)
    requires KeptAt(r, tail, rest)
    ensures KeptAt(r, [c] + tail, shifted)
    ensures KeptAt([c] + r, [c] + tail, [0] + shifted)
    ensures forall i :: 1 <= i <= |tail| ==> (i in shifted <==> i - 1 in rest)
    ensures 0 !in shifted
  {
    shifted := seq(|rest|, k requires 0 <= k < |rest| => rest[k] + 1);
    forall i | 1 <= i <= |tail| && i - 1 in rest ensures i in shifted {
      var k :| 0 <= k < |rest| && rest[k] == i - 1;
      assert shifted[k] == i;
    }
  }

  /** The filter is an order-preserving subsequence of the list, and the
      positions it keeps are exactly those whose client matches. */
  lemma {:induction false} FilterPreservesOrder(clients: seq<Cliente>, term: string)
    returns (idx: seq<int>)
    ensures KeptAt(FilterClients(clients, term), clients, idx)
    ensures forall i :: 0 <= i < |clients| ==> (i in idx <==> Matches(clients[i], term))
  {
    if clients == [] {
      idx := [];
    } else {
      var head, tail := clients[0], clients[1..];
      assert clients == [head] + tail;
      var rest := FilterPreservesOrder(tail, term);
      var r := FilterClients(tail, term);
      var shifted := KeptAtCons(r, tail, head, rest);
      assert forall i :: 1 <= i < |clients| ==> clients[i] == tail[i - 1];
      if Matches(head, term) {
        idx := [0] + shifted;
        assert FilterClients(clients, term) == [head] + r;
      } else {
        idx := shifted;
        assert FilterClients(clients, term) == r;
      }
    }
  }

  /** Filtering a concatenation filters each part. */
  lemma {:induction false} FilterAppend(a: seq<Cliente>, b: seq<Cliente>, term: string)
    ensures FilterClients(a + b, term) == FilterClients(a, term) + FilterClients(b, term)
  {
    if a != [] {
      assert (a + b)[1..] == a[1..] + b;
      FilterAppend(a[1..], b, term);
    } else {
      assert a + b == b;
    }
  }

  /** Filtering a second time with the same term changes nothing. */
  lemma {:induction false} FilterIdempotent(clients: seq<Cliente>, term: string)
    ensures FilterClients(FilterClients(clients, term), term) == FilterClients(clients, term)
  {
    if clients != [] {
      FilterIdempotent(clients[1..], term);
    }
  }

  /** The list is returned unchanged exactly when every client matches. */
  lemma {:induction false} FilterAllMatch(clients: seq<Cliente>, term: string)
    ensures FilterClients(clients, term) == clients <==> forall c :: c in clients ==> Matches(c, term)
  {
    if clients != [] {
      FilterAllMatch(clients[1..], term);
      if !Matches(clients[0], term) {
        assert |FilterClients(clients, term)| < |clients|;
      }
    }
  }

  /** An empty search box shows the whole list. */
  lemma EmptyTermKeepsAll(clients: seq<Cliente>)
    ensures FilterClients(clients, []) == clients
  {
    forall c | c in clients ensures Matches(c, []) {
      IncludesBasics(c.phone, []);
    }
    FilterAllMatch(clients, []);
  }

  /** A term that occurs in a client's name with its exact case also matches
      ignoring case. */
  lemma ExactNameMatchIsKept(c: Cliente, term: string)
    requires Includes(c.name, term)
    ensures Matches(c, term)
  {
    IncludesToLower(c.name, term);
  }

  /** Changing the case of the term never changes a name or email match,
      but it can change a phone match: a phone is compared as typed. */
  lemma PhoneMatchIsCaseSensitive()
    ensures Matches(Cliente("1", "", "", "x", 0, "", "s1"), "x")
    ensures !Matches(Cliente("1", "", "", "x", 0, "", "s1"), "X")
    ensures ToLower("x") == ToLower("X")
  {
    var c := Cliente("1", "", "", "x", 0, "", "s1");
    assert StartsWith(c.phone, "x");
    assert ToLower("X") == "x";
    IncludesBasics("", "x");
    IncludesBasics("x", "X");
    assert !StartsWith("x", "X");
    assert !Includes("x"[1..], "X");
  }
}
