/**
 * The scan coordinator of `main`: the range check, one probe unit per port
 * of `start..=end`, each unit pushing `(port, banner)` when the port is
 * open, and the final sort by port. The units run concurrently in the
 * original; here their pushes happen one after another in `order`, an
 * arbitrary completion order.
 */
module Scan {
  import opened Types
  import opened Banner
  import Fingerprint

  /** One open port and the banner read from it. */
  datatype PortResult = PortResult(port: Port, banner: Option<string>)

  /** The scan is refused when `start > end`; otherwise it yields its sorted results. */
  datatype ScanOutcome = RangeRejected | Completed(results: seq<PortResult>)

  /** Ports in non-decreasing order, as `sort_by_key` leaves them. */
  ghost predicate Ascending(rs: seq<PortResult>) {
    forall i, j :: 0 <= i < j < |rs| ==> rs[i].port <= rs[j].port
  }

  /** Ports in strictly increasing order: sorted and free of duplicates. */
  ghost predicate StrictlyAscending(rs: seq<PortResult>) {
    forall i, j :: 0 <= i < j < |rs| ==> rs[i].port < rs[j].port
  }

  /** `r` is what the unit for `r.port` pushes: the port accepted a connection and `r` holds its banner. */
  ghost predicate Reported(r: PortResult, open: map<Port, Peer>) {
    r.port in open && r.banner == GrabBanner(r.port, open[r.port])
  }

  /**
   * `order` lists the units spawned for `start..=end` in the order they
   * finish: each port of the range exactly once.
   */
  ghost predicate IsCompletionOrder(order: seq<Port>, start: Port, end: Port) {
    && (forall i, j :: 0 <= i < j < |order| ==> order[i] != order[j])
    && (forall i :: 0 <= i < |order| ==> start <= order[i] <= end)
    && (forall p: Port :: start <= p <= end ==> p in order)
  }

  /** The shared vector after the units in `order` have run, in that order. */
  function Pushed(order: seq<Port>, open: map<Port, Peer>): (pushed: seq<PortResult>)
    ensures |pushed| <= |order|
    ensures forall r :: r in pushed ==> r.port in open
  {
    if order == [] then []
    else
      var port := order[|order| - 1];
      Pushed(order[..|order| - 1], open)
        + if port in open then [PortResult(port, GrabBanner(port, open[port]))] else []
  }

  /** The open ports of `lo..=hi` with their banners, in increasing port order. */
  function OpenPorts(lo: int, hi: int, open: map<Port, Peer>): (report: seq<PortResult>)
    requires 0 <= lo && hi < 0x1_0000
    ensures |report| <= if lo <= hi then hi + 1 - lo else 0
    ensures forall r :: r in report ==> lo <= r.port <= hi && r.port in open
    decreases hi + 1 - lo
  {
    if lo > hi then []
    else
      var rest := OpenPorts(lo + 1, hi, open);
      if lo in open then [PortResult(lo, GrabBanner(lo, open[lo]))] + rest else rest
  }

  /** The expected report lists exactly the open ports of the range, each with its banner. */
  lemma {:induction false} OpenPortsMembers(lo: int, hi: int, open: map<Port, Peer>)
    requires 0 <= lo && hi < 0x1_0000
    ensures forall r :: r in OpenPorts(lo, hi, open) <==> lo <= r.port <= hi && Reported(r, open)
    decreases hi + 1 - lo
  {
    if lo <= hi {
      var rest := OpenPorts(lo + 1, hi, open);
      var here := if lo in open then [PortResult(lo, GrabBanner(lo, open[lo]))] else [];
      assert OpenPorts(lo, hi, open) == here + rest;
      OpenPortsMembers(lo + 1, hi, open);
      forall r: PortResult | lo <= r.port <= hi && Reported(r, open) ensures r in here + rest {
        if r.port == lo {
          assert r in here;
        } else {
          assert r in rest;
        }
      }
    }
  }

  /** A result placed before a strictly ascending list of larger ports keeps it strictly ascending. */
  lemma ConsAscending(head: PortResult, rest: seq<PortResult>)
    requires StrictlyAscending(rest)
    requires forall r :: r in rest ==> head.port < r.port
    ensures StrictlyAscending([head] + rest)
  {
    var rs := [head] + rest;
    forall i, j | 0 <= i < j < |rs| ensures rs[i].port < rs[j].port {
      assert rs[j] == rest[j - 1];
      if i > 0 {
        assert rs[i] == rest[i - 1];
      }
    }
  }

  /** The expected report is in strictly increasing port order. */
  lemma {:induction false} OpenPortsAscending(lo: int, hi: int, open: map<Port, Peer>)
    requires 0 <= lo && hi < 0x1_0000
    ensures StrictlyAscending(OpenPorts(lo, hi, open))
    decreases hi + 1 - lo
  {
    if lo <= hi {
      OpenPortsAscending(lo + 1, hi, open);
      if lo in open {
        OpenPortsMembers(lo + 1, hi, open);
        ConsAscending(PortResult(lo, GrabBanner(lo, open[lo])), OpenPorts(lo + 1, hi, open));
      }
    }
  }

  /** The expected report holds exactly the open ports of the range, strictly ascending. */
  lemma OpenPortsSpec(lo: int, hi: int, open: map<Port, Peer>)
    requires 0 <= lo && hi < 0x1_0000
    ensures StrictlyAscending(OpenPorts(lo, hi, open))
    ensures forall r :: r in OpenPorts(lo, hi, open) <==> lo <= r.port <= hi && Reported(r, open)
  {
    OpenPortsMembers(lo, hi, open);
    OpenPortsAscending(lo, hi, open);
  }

  /** Exchanges `a[i]` and `a[j]`. */
  method Swap(a: array<PortResult>, i: nat, j: nat)
    requires i < j < a.Length
    modifies a
    ensures a[i] == old(a[j]) && a[j] == old(a[i])
    ensures forall k :: 0 <= k < a.Length && k != i && k != j ==> a[k] == old(a[k])
    ensures multiset(a[..]) == old(multiset(a[..]))
  {
    a[i], a[j] := a[j], a[i];
  }

  /** Moves `a[i]` down into the sorted prefix `a[..i]`, so that `a[..i + 1]` is sorted. */
  method InsertAt(a: array<PortResult>, i: nat)
    requires i < a.Length
    requires forall x, y :: 0 <= x < y < i ==> a[x].port <= a[y].port
    modifies a
    ensures forall x, y :: 0 <= x < y <= i ==> a[x].port <= a[y].port
    ensures a[i + 1..] == old(a[i + 1..])
    ensures multiset(a[..]) == old(multiset(a[..]))
  {
    var j := i;
    while j > 0 && a[j - 1].port > a[j].port
      invariant 0 <= j <= i
      invariant forall x, y :: 0 <= x < y <= i && x != j && y != j ==> a[x].port <= a[y].port
      invariant forall y :: j < y <= i ==> a[j].port < a[y].port
      invariant a[i + 1..] == old(a[i + 1..])
      invariant multiset(a[..]) == old(multiset(a[..]))
    {
      ghost var before := a[..];
      Swap(a, j - 1, j);
      forall x, y | 0 <= x < y <= i && x != j - 1 && y != j - 1 ensures a[x].port <= a[y].port {
        var u := if x == j then j - 1 else x;
        var v := if y == j then j - 1 else y;
        assert a[x] == before[u] && a[y] == before[v];
        assert u < v && u != j && v != j;
      }
      j := j - 1;
    }
  }

  /** `sort_by_key(|(port, _)| port)` on the collected vector, in place. */
  method SortByPort(a: array<PortResult>)
    modifies a
    ensures Ascending(a[..])
    ensures multiset(a[..]) == old(multiset(a[..]))
  {
    var i := 0;
    while i < a.Length
      invariant 0 <= i <= a.Length
      invariant forall x, y :: 0 <= x < y < i ==> a[x].port <= a[y].port
      invariant multiset(a[..]) == old(multiset(a[..]))
    {
      InsertAt(a, i);
      i := i + 1;
    }
  }

  /**
   * The probe units of `main`, finishing in `order`: each unit whose port
   * accepted a connection appends its port and banner to the shared vector.
   */
  method RunUnits(open: map<Port, Peer>, order: seq<Port>) returns (results: seq<PortResult>)
    ensures results == Pushed(order, open)
  {
    results := [];
    var i := 0;
    while i < |order|
      invariant 0 <= i <= |order|
      invariant results == Pushed(order[..i], open)
    {
      var port := order[i];
      PushedStep(order, i, open);
      if port in open {
        var banner := GrabBanner(port, open[port]);
        results := results + [PortResult(port, banner)];
      }
      i := i + 1;
    }
    assert order[..i] == order;
  }

  /**
   * `main` after argument parsing: reject `start > end` before any port is
   * probed; otherwise run one unit per port, collect the pushes in
   * completion order `order`, and sort them by port. `open` holds the
   * ports whose connection attempt succeeds and what each peer then does.
   */
  method Scan(start: Port, end: Port, open: map<Port, Peer>, order: seq<Port>) returns (outcome: ScanOutcome)
    requires start <= end ==> IsCompletionOrder(order, start, end)
    ensures outcome.RangeRejected? <==> start > end
    ensures outcome.Completed? ==> outcome.results == OpenPorts(start, end, open)
    ensures outcome.Completed? ==> StrictlyAscending(outcome.results)
    ensures outcome.Completed? ==> forall r :: r in outcome.results ==> start <= r.port <= end
  {
    if start > end {
      return RangeRejected;
    }
    var results := RunUnits(open, order);
    var data := new PortResult[|results|](k requires 0 <= k < |results| => results[k]);
    assert data[..] == results;
    SortByPort(data);
    SortedPushesAreOpenPorts(start, end, open, order, data[..]);
    OpenPortsSpec(start, end, open);
    return Completed(data[..]);
  }

  /** The unit `order[i]` finishing after `order[..i]`: it pushes its result exactly when its port is open. */
  lemma PushedStep(order: seq<Port>, i: nat, open: map<Port, Peer>)
    requires i < |order|
    ensures order[i] in open ==>
      Pushed(order[..i + 1], open) == Pushed(order[..i], open) + [PortResult(order[i], GrabBanner(order[i], open[order[i]]))]
    ensures order[i] !in open ==> Pushed(order[..i + 1], open) == Pushed(order[..i], open)
  {
    assert order[..i + 1][..i] == order[..i];
  }

  /** The vector holds exactly the reports of the open ports among the units that ran. */
  lemma {:induction false} PushedMembers(order: seq<Port>, open: map<Port, Peer>)
    ensures forall r :: r in Pushed(order, open) <==> r.port in order && Reported(r, open)
  {
    if order != [] {
      var init := order[..|order| - 1];
      PushedMembers(init, open);
      assert order == init + [order[|order| - 1]];
    }
  }

  /** When no unit runs twice, nothing is pushed twice. */
  lemma {:induction false} PushedNoDuplicates(order: seq<Port>, open: map<Port, Peer>)
    requires forall i, j :: 0 <= i < j < |order| ==> order[i] != order[j]
    ensures forall r :: multiset(Pushed(order, open))[r] <= 1
  {
    if order != [] {
      var init := order[..|order| - 1];
      var port := order[|order| - 1];
      PushedNoDuplicates(init, open);
      PushedMembers(init, open);
      assert port !in init;
      var tail: seq<PortResult> := if port in open then [PortResult(port, GrabBanner(port, open[port]))] else [];
      assert Pushed(order, open) == Pushed(init, open) + tail;
      forall r ensures multiset(Pushed(order, open))[r] <= 1 {
        if r in tail {
          assert r !in Pushed(init, open);
        }
      }
    }
  }

  /** Elements that occur at most once in `s` sit at pairwise different positions. */
  lemma DistinctElements(s: seq<PortResult>)
    requires forall x :: multiset(s)[x] <= 1
    ensures forall i, j :: 0 <= i < j < |s| ==> s[i] != s[j]
  {
    forall i, j | 0 <= i < j < |s| ensures s[i] != s[j] {
      assert s == s[..j] + s[j..];
      assert s[..j][i] == s[i];
      assert s[j..][0] == s[j];
      assert s[i] in multiset(s[..j]);
      assert s[j] in multiset(s[j..]);
      assert multiset(s)[s[i]] <= 1;
      assert multiset(s) == multiset(s[..j]) + multiset(s[j..]);
    }
  }

  /** The tail of a strictly ascending list is strictly ascending and holds all but its head. */
  lemma AscendingTail(a: seq<PortResult>)
    requires a != [] && StrictlyAscending(a)
    ensures StrictlyAscending(a[1..])
    ensures forall r :: r in a[1..] <==> r in a && r != a[0]
  {
    assert a == [a[0]] + a[1..];
    forall r | r in a[1..] ensures r != a[0] {
      var x :| 0 <= x < |a| - 1 && a[1..][x] == r;
      assert a[x + 1] == r;
    }
  }

  /** Two strictly ascending sequences with the same elements are equal. */
  lemma {:induction false} StrictlyAscendingUnique(a: seq<PortResult>, b: seq<PortResult>)
    requires StrictlyAscending(a) && StrictlyAscending(b)
    requires forall r :: r in a <==> r in b
    ensures a == b
    decreases |a|
  {
    if a != [] {
      var x := a[0];
      assert x in a && x in b;
      assert |b| > 0;
    }
    if b != [] {
      var y := b[0];
      assert y in b && y in a;
      assert |a| > 0;
    }
    if a != [] && b != [] {
      assert a[0] in b;
      assert b[0] in a;
      var k :| 0 <= k < |b| && b[k] == a[0];
      var m :| 0 <= m < |a| && a[m] == b[0];
      assert k == 0;
      AscendingTail(a);
      AscendingTail(b);
      StrictlyAscendingUnique(a[1..], b[1..]);
      assert a == [a[0]] + a[1..];
      assert b == [b[0]] + b[1..];
    }
  }

  /**
   * Whatever the completion order, sorting the pushed results gives the
   * open ports of the range in increasing order: the scan's report does
   * not depend on how the concurrent units were scheduled.
   */
  lemma SortedPushesAreOpenPorts(start: Port, end: Port, open: map<Port, Peer>, order: seq<Port>, sorted: seq<PortResult>)
    requires start <= end && IsCompletionOrder(order, start, end)
    requires Ascending(sorted) && multiset(sorted) == multiset(Pushed(order, open))
    ensures sorted == OpenPorts(start, end, open)
  {
    var pushed := Pushed(order, open);
    var expected := OpenPorts(start, end, open);
    OpenPortsSpec(start, end, open);
    PushedMembers(order, open);
    PushedNoDuplicates(order, open);
    DistinctElements(sorted);
    forall r ensures r in sorted <==> r in pushed {
      assert r in sorted <==> r in multiset(sorted);
      assert r in pushed <==> r in multiset(pushed);
    }
    forall i, j | 0 <= i < j < |sorted| ensures sorted[i].port < sorted[j].port {
      assert sorted[i] in sorted && sorted[j] in sorted;
    }
    forall r ensures r in sorted <==> r in expected {
      if start <= r.port <= end {
        assert r.port in order;
      }
      if r.port in order {
        var x :| 0 <= x < |order| && order[x] == r.port;
      }
    }
    StrictlyAscendingUnique(sorted, expected);
  }

  /** A range with no open port yields no results. */
  lemma NoOpenPortsNoResults(start: Port, end: Port, open: map<Port, Peer>)
    requires forall p :: p in open ==> !(start <= p <= end)
    ensures OpenPorts(start, end, open) == []
  {
    OpenPortsSpec(start, end, open);
    StrictlyAscendingUnique(OpenPorts(start, end, open), []);
  }

  /** A range whose only open port is `port` yields exactly that port's result. */
  lemma SingleOpenPort(start: Port, end: Port, port: Port, open: map<Port, Peer>)
    requires start <= port <= end && port in open
    requires forall q :: q in open && start <= q <= end ==> q == port
    ensures OpenPorts(start, end, open) == [PortResult(port, GrabBanner(port, open[port]))]
  {
    var only := PortResult(port, GrabBanner(port, open[port]));
    OpenPortsSpec(start, end, open);
    forall r ensures r in OpenPorts(start, end, open) <==> r in [only] {
      if r.port == port {
        assert Reported(r, open) <==> r == only;
      }
    }
    StrictlyAscendingUnique(OpenPorts(start, end, open), [only]);
  }

  /** A host with a single listener, on a port of the range, yields exactly that listener's result. */
  lemma OnlyListener(start: Port, end: Port, port: Port, peer: Peer, open: map<Port, Peer>)
    requires start <= port <= end && open == map[port := peer]
    ensures OpenPorts(start, end, open) == [PortResult(port, GrabBanner(port, peer))]
  {
    SingleOpenPort(start, end, port, open);
  }

  /**
   * One listener on port 22 greeting with "SSH-2.0-OpenSSH_8.9" and no
   * other open port in 1..=100: exactly one result, classified as SSH.
   */
  lemma SingleSshListenerExample(start: Port, end: Port, greeting: string, peer: Peer, open: map<Port, Peer>)
    requires start == 1 && end == 100
    requires greeting == "SSH-2.0-OpenSSH_8.9"
    requires peer.reply == Read(|greeting|, greeting)
    requires open == map[22 := peer]
    ensures OpenPorts(start, end, open) == [PortResult(22, Some(greeting))]
    ensures Fingerprint.Fingerprint(22, Some(greeting)) == "SSH"
  {
    SshGreetingExample(greeting, peer);
    OnlyListener(start, end, 22, peer, open);
    Fingerprint.SshBannerExample(greeting);
  }
}
