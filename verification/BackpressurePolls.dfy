/**
 What publisher and endpoints of the stream with backpressure come to: a look finds a record if and
 only if one has been published, it is then read to its end, and a publisher that recomputes the
 minimum goes on if and only if no open endpoint is a whole ring behind.
 */
module BackpressurePolls {
  import opened Common
  import opened Stream
  import opened Backpressure

  // ------------------------------------------------------------- endpoints

  /** The first look of a poll finds a record if and only if one has been published at the endpoint's position. */
  lemma SeeFinds(states: seq<Flow>, actions: seq<Action>, n: nat, e: nat)
    requires Run(states, actions) && n < |states| && e < |states[n].endpoints|
    requires states[n].endpoints[e].open && states[n].endpoints[e].stage == Away
    ensures var s, ep := states[n], states[n].endpoints[e];
            Do(s, See(e)) == Some(if ep.tail < |s.published| then Set(s, e, ep.(stage := Reading([]))) else s)
  {
    PollFinds(states, actions, n, e);
  }

  /** A poll under way: the next read takes the record's next cell, and after the last one it is delivered. */
  lemma ReadsOn(states: seq<Flow>, actions: seq<Action>, n: nat, e: nat)
    requires Run(states, actions) && n < |states| && e < |states[n].endpoints|
    requires states[n].endpoints[e].open && states[n].endpoints[e].stage.Reading?
    ensures var s, ep := states[n], states[n].endpoints[e];
            && ep.tail < |s.published| && var r, got := s.published[ep.tail], ep.stage.got;
            && Reads(got, r)
            && if |got| < Size(r)
               then Do(s, Read(e)) == Some(Set(s, e, ep.(stage := Reading(got + [Cell(r, |got|)]))))
               else Do(s, Take(e)) == Some(Set(s, e, ep.(stage := Advanced(ep.tail), tail := ep.tail + 1,
                        delivered := ep.delivered + [r])))
  {
    var s, ep := states[n], states[n].endpoints[e];
    RunInv(states, actions, n);
    assert EndpointOk(s, e);
    TailIsLive(s, e);
    var r, got := s.published[ep.tail], ep.stage.got;
    CompleteWhen(got, r);
    if |got| == Size(r) { AssembleIs(got, r); }
  }

  // ------------------------------------------------------------- the publisher

  function After(s: Flow, actions: seq<Action>): Option<Flow>
    decreases |actions|
  {
    if actions == [] then Some(s)
    else if s.slots == [] || Do(s, actions[0]).None? then None
    else After(Do(s, actions[0]).value, actions[1..])
  }

  lemma {:induction false} Both(s: Flow, a: seq<Action>, t: Flow, b: seq<Action>)
    requires After(s, a) == Some(t)
    ensures After(s, a + b) == After(t, b)
    decreases |a|
  {
    hide Do;
    if a == [] {
      assert a + b == b;
    } else {
      assert (a + b)[0] == a[0] && (a + b)[1..] == a[1..] + b;
      Both(Do(s, a[0]).value, a[1..], t, b);
    }
  }

  lemma One(s: Flow, a: Action, t: Flow)
    requires s.slots != [] && Do(s, a) == Some(t)
    ensures After(s, [a]) == Some(t)
  {
    hide Do;
    assert [a][1..] == [];
  }

  /** The scan after the first `n` tails have been loaded. */
  function ScanTo(s: Flow, n: nat): (scan: Scan)
    requires n <= |s.endpoints|
    ensures scan.next == n
  {
    if n == 0 then Scan(0, None) else Look(s, ScanTo(s, n - 1))
  }

  /** The least tail of the open endpoints among the first `n`. */
  lemma {:induction false} ScanIs(s: Flow, n: nat)
    requires n <= |s.endpoints|
    ensures var least := ScanTo(s, n).least;
            && (forall e :: 0 <= e < n && s.endpoints[e].open ==> least.Some? && least.value <= s.endpoints[e].tail)
            && (least.Some? ==> exists e :: 0 <= e < n && s.endpoints[e].open && s.endpoints[e].tail == least.value)
  {
    if n > 0 {
      ScanIs(s, n - 1);
      if s.endpoints[n - 1].open { assert s.endpoints[n - 1].tail == s.endpoints[n - 1].tail; }
    }
  }

  function Loads(n: nat): (a: seq<Action>)
    ensures |a| == n && forall i :: 0 <= i < n ==> a[i] == ScanTail
  {
    seq(n, _ => ScanTail)
  }

  lemma {:induction false} LoadsGo(s: Flow, rec: Rec, n: nat)
    requires s.slots != [] && n <= |s.endpoints| && s.publisher == Publisher.Scanning(rec, Scan(0, None))
    ensures After(s, Loads(n)) == Some(s.(publisher := Publisher.Scanning(rec, ScanTo(s, n))))
  {
    if n == 0 {
      assert Loads(0) == [];
    } else {
      LoadsGo(s, rec, n - 1);
      var t := s.(publisher := Publisher.Scanning(rec, ScanTo(s, n - 1)));
      var u := s.(publisher := Publisher.Scanning(rec, ScanTo(s, n)));
      LookSame(s, t, ScanTo(s, n - 1));
      assert Do(t, ScanTail) == Some(u);
      hide Do;
      One(t, ScanTail, u);
      Both(s, Loads(n - 1), t, [ScanTail]);
      assert Loads(n) == Loads(n - 1) + [ScanTail];
    }
  }

  lemma LookSame(s: Flow, t: Flow, scan: Scan)
    requires t.endpoints == s.endpoints && scan.next < |s.endpoints|
    ensures Look(t, scan) == Look(s, scan)
  {
  }

  /** The least tail of an open endpoint, or the head where there is none. */
  ghost predicate LeastTail(s: Flow, m: nat) {
    && (forall e :: 0 <= e < |s.endpoints| && s.endpoints[e].open ==> m <= s.endpoints[e].tail)
    && (m == |s.published| || exists e :: 0 <= e < |s.endpoints| && s.endpoints[e].open && s.endpoints[e].tail == m)
    && ((forall e :: 0 <= e < |s.endpoints| ==> !s.endpoints[e].open) ==> m == |s.published|)
  }

  /** A publisher that finds no room and recomputes the minimum, nobody else moving, finds the exact one. */
  lemma RescanGoes(s: Flow, rec: Rec) returns (m: nat)
    requires s.slots != [] && s.publisher == Wanting(rec) && |s.published| >= s.minTail + |s.slots|
    ensures LeastTail(s, m)
    ensures After(s, [LoadMin(true)] + Loads(|s.endpoints|) + [ScanEnd]) == Some(s.(minTail := m))
  {
    var n := |s.endpoints|;
    var t := s.(publisher := Publisher.Scanning(rec, Scan(0, None)));
    var u := s.(publisher := Publisher.Scanning(rec, ScanTo(t, n)));
    m := Minimum(ScanTo(t, n), |s.published|);
    assert Do(s, LoadMin(true)) == Some(t);
    assert Do(u, ScanEnd) == Some(s.(minTail := m));
    hide Do, After;
    One(s, LoadMin(true), t);
    LoadsGo(t, rec, n);
    One(u, ScanEnd, s.(minTail := m));
    Both(s, [LoadMin(true)], t, Loads(n));
    Both(s, [LoadMin(true)] + Loads(n), u, [ScanEnd]);
    ScanIs(t, n);
  }

  /** Then it writes if and only if no open endpoint is a whole ring behind. */
  lemma RoomFound(s: Flow, rec: Rec, m: nat)
    requires s.slots != [] && s.publisher == Wanting(rec) && LeastTail(s, m) && s.minTail == m
    ensures Do(s, LoadMin(false)) == Some(s) ||
            Do(s, LoadMin(false)) == Some(s.(publisher := Writing(rec, 0), limit := m + |s.slots|))
    ensures Do(s, LoadMin(false)).value.publisher.Writing? <==>
            forall e :: 0 <= e < |s.endpoints| && s.endpoints[e].open ==>
                |s.published| < s.endpoints[e].tail + |s.slots|
  {
    if m != |s.published| {
      var e :| 0 <= e < |s.endpoints| && s.endpoints[e].open && s.endpoints[e].tail == m;
    }
  }
}
