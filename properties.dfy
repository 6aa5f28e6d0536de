/**
 * What the reconciliation run promises, stated over the specification
 * functions of module Reconcile (which the methods there are proved to
 * compute): the pending list only shrinks and every poll asks for exactly the
 * names still pending, it is reset to the service for each server, the
 * control call's statuses are only printed, a sleep falls between
 * consecutive polls, the servers are visited in file order up to the first
 * blank line, and a failure ends the run.
 */
module Properties {
  import opened Maybe
  import opened ControlAction
  import opened ServerList
  import opened PendingList
  import opened Reconcile

  // Views of a trace.

  /** The name lists of the status requests, in order. */
  function Queries(es: seq<Event>): seq<seq<string>>
    decreases |es|
  {
    if es == [] then [] else (if es[0].StatusRequest? then [es[0].names] else []) + Queries(es[1..])
  }

  /** The control requests, in order. */
  function Controls(es: seq<Event>): seq<Event>
    decreases |es|
  {
    if es == [] then [] else (if es[0].ControlRequest? then [es[0]] else []) + Controls(es[1..])
  }

  /** The addresses announced, in order. */
  function Visits(es: seq<Event>): seq<string>
    decreases |es|
  {
    if es == [] then [] else (if es[0].Visit? then [es[0].address] else []) + Visits(es[1..])
  }

  /** The number of sleeps. */
  function Sleeps(es: seq<Event>): nat
    decreases |es|
  {
    if es == [] then 0 else (if es[0].Sleep? then 1 else 0) + Sleeps(es[1..])
  }

  predicate PrintsOnly(es: seq<Event>) {
    forall i :: 0 <= i < |es| ==> es[i].Print?
  }

  /** The names of the given statuses that equal "Started", in order. */
  function StartedNames(items: seq<ServiceInfo>): seq<string>
    decreases |items|
  {
    if items == [] then []
    else (if items[0].status == Started then [items[0].name] else []) + StartedNames(items[1..])
  }

  lemma {:induction false} ViewsAppend(a: seq<Event>, b: seq<Event>)
    ensures Queries(a + b) == Queries(a) + Queries(b)
    ensures Controls(a + b) == Controls(a) + Controls(b)
    ensures Visits(a + b) == Visits(a) + Visits(b)
    ensures Sleeps(a + b) == Sleeps(a) + Sleeps(b)
    decreases |a|
  {
    if a != [] {
      assert (a + b)[0] == a[0];
      assert (a + b)[1..] == a[1..] + b;
      ViewsAppend(a[1..], b);
      var hq: seq<seq<string>> := if a[0].StatusRequest? then [a[0].names] else [];
      assert Queries(a + b) == hq + (Queries(a[1..]) + Queries(b));
      var hc: seq<Event> := if a[0].ControlRequest? then [a[0]] else [];
      assert Controls(a + b) == hc + (Controls(a[1..]) + Controls(b));
      var hv: seq<string> := if a[0].Visit? then [a[0].address] else [];
      assert Visits(a + b) == hv + (Visits(a[1..]) + Visits(b));
    } else {
      assert a + b == b;
    }
  }

  lemma {:induction false} PrintsOnlyViews(es: seq<Event>)
    requires PrintsOnly(es)
    ensures Queries(es) == [] && Controls(es) == [] && Visits(es) == [] && Sleeps(es) == 0
    decreases |es|
  {
    if es != [] {
      PrintsOnlyViews(es[1..]);
    }
  }

  /** The name lists the polling loop asks for. */
  function PollQueries(address: string, p: seq<string>, rest: seq<Response>): seq<seq<string>> {
    Queries(Poll(address, p, rest).events)
  }

  // One poll's statuses.

  /** Scanning a poll's statuses removes, one by one, exactly the names reported "Started". */
  lemma {:induction false} ScanRemovesStarted(p: seq<string>, items: seq<ServiceInfo>)
    ensures Scan(p, items).pending == RemoveAll(p, StartedNames(items))
    decreases |items|
  {
    if items != [] {
      var s := StartedNames(items);
      var row := [RowEvent(items[0])];
      if items[0].status == Started {
        assert s == [items[0].name] + StartedNames(items[1..]);
        match Remove(p, items[0].name)
        case None =>
          assert Scan(p, items) == ScanResult(None, row);
        case Some(left) =>
          assert Scan(p, items) == Scan(left, items[1..]).After(row);
          assert RemoveAll(p, s) == RemoveAll(left, StartedNames(items[1..]));
          ScanRemovesStarted(left, items[1..]);
      } else {
        assert s == StartedNames(items[1..]);
        assert Scan(p, items) == Scan(p, items[1..]).After(row);
        ScanRemovesStarted(p, items[1..]);
      }
    }
  }

  /**
   * After a poll the pending list is the old one less the names reported
   * "Started"; the poll fails with ValueError exactly when some such name is
   * not pending (counting repetitions).
   */
  lemma ScanLeavesNotStarted(p: seq<string>, items: seq<ServiceInfo>)
    ensures Scan(p, items).pending.Some? <==> multiset(StartedNames(items)) <= multiset(p)
    ensures Scan(p, items).pending.Some? ==>
      multiset(Scan(p, items).pending.value) == multiset(p) - multiset(StartedNames(items))
  {
    ScanRemovesStarted(p, items);
    RemoveAllSucceedsIff(p, StartedNames(items));
  }

  /** Statuses other than "Started" never change the pending list. */
  lemma {:induction false} OtherStatusesKeepPending(p: seq<string>, items: seq<ServiceInfo>)
    requires forall i :: 0 <= i < |items| ==> items[i].status != Started
    ensures Scan(p, items).pending == Some(p)
    decreases |items|
  {
    if items != [] {
      OtherStatusesKeepPending(p, items[1..]);
    }
  }

  lemma RowEventsCons(items: seq<ServiceInfo>)
    requires items != []
    ensures RowEvents(items) == [RowEvent(items[0])] + RowEvents(items[1..])
  {
  }

  /** Every status is printed, up to the one whose removal fails, and nothing else happens. */
  lemma {:induction false} ScanPrintsRows(p: seq<string>, items: seq<ServiceInfo>)
    ensures |Scan(p, items).shown| <= |items|
    ensures Scan(p, items).shown == RowEvents(items)[..|Scan(p, items).shown|]
    ensures Scan(p, items).pending.Some? ==> Scan(p, items).shown == RowEvents(items)
    ensures items != [] ==> |Scan(p, items).shown| > 0
    ensures PrintsOnly(Scan(p, items).shown)
    ensures Scan(p, items).pending.None? ==> FailsAt(p, items, |Scan(p, items).shown|)
    decreases |items|
  {
    ScanFailure(p, items);
    if items == [] {
      assert RowEvents(items) == [];
    } else {
      var row := [RowEvent(items[0])];
      RowEventsCons(items);
      var next := if items[0].status == Started then Remove(p, items[0].name) else Some(p);
      if next.Some? {
        var t := Scan(next.value, items[1..]);
        assert Scan(p, items) == t.After(row);
        ScanPrintsRows(next.value, items[1..]);
        assert RowEvents(items)[..1 + |t.shown|] == row + RowEvents(items[1..])[..|t.shown|];
      } else {
        assert Scan(p, items) == ScanResult(None, row);
      }
    }
  }

  /**
   * The `n`-th status is the first whose removal fails: it reports "Started"
   * for a name that the earlier statuses have left out of the pending list.
   */
  predicate FailsAt(p: seq<string>, items: seq<ServiceInfo>, n: int) {
    && 1 <= n <= |items|
    && items[n - 1].status == Started
    && RemoveAll(p, StartedNames(items[..n - 1])).Some?
    && items[n - 1].name !in RemoveAll(p, StartedNames(items[..n - 1])).value
  }

  lemma StartedNamesPrefix(items: seq<ServiceInfo>, k: nat)
    requires 1 <= k <= |items|
    ensures StartedNames(items[..k]) ==
      (if items[0].status == Started then [items[0].name] else []) + StartedNames(items[1..][..k - 1])
  {
    assert items[..k][0] == items[0];
    assert items[..k][1..] == items[1..][..k - 1];
  }

  /** A failure at the `m`-th of the later statuses is one at the `m + 1`-th of all of them. */
  lemma FailsAtCons(p: seq<string>, items: seq<ServiceInfo>, left: seq<string>, m: int)
    requires items != []
    requires (if items[0].status == Started then Remove(p, items[0].name) else Some(p)) == Some(left)
    requires FailsAt(left, items[1..], m)
    ensures FailsAt(p, items, m + 1)
  {
    var rest := items[1..];
    StartedNamesPrefix(items, m);
    var head := if items[0].status == Started then [items[0].name] else [];
    var later := StartedNames(rest[..m - 1]);
    if items[0].status == Started {
      assert (head + later)[0] == items[0].name && (head + later)[1..] == later;
    } else {
      assert head + later == later;
    }
    assert RemoveAll(p, StartedNames(items[..m])) == RemoveAll(left, later);
    assert items[m] == rest[m - 1];
  }

  lemma {:induction false} ScanFailure(p: seq<string>, items: seq<ServiceInfo>)
    ensures Scan(p, items).pending.None? ==> FailsAt(p, items, |Scan(p, items).shown|)
    decreases |items|
  {
    if items != [] {
      var row := [RowEvent(items[0])];
      var next := if items[0].status == Started then Remove(p, items[0].name) else Some(p);
      if next.None? {
        assert Scan(p, items) == ScanResult(None, row);
        assert items[..0] == [];
        assert RemoveAll(p, StartedNames(items[..0])) == Some(p);
      } else {
        var t := Scan(next.value, items[1..]);
        assert Scan(p, items) == t.After(row);
        ScanFailure(next.value, items[1..]);
        if t.pending.None? {
          FailsAtCons(p, items, next.value, |t.shown|);
        }
      }
    }
  }

  // The polling loop of one server.

  /** Whether the answer to a poll of `p` leaves names pending, so that the loop sleeps and polls again. */
  predicate Continues(p: seq<string>, rest: seq<Response>) {
    && rest != [] && rest[0].Answer?
    && Scan(p, rest[0].items).pending.Some?
    && Scan(p, rest[0].items).pending.value != []
  }

  /** What the answer to a poll of `p` leaves pending. */
  function LeftAfter(p: seq<string>, rest: seq<Response>): seq<string>
    requires Continues(p, rest)
  {
    Scan(p, rest[0].items).pending.value
  }

  /** A turn of the polling loop that sleeps and polls again. */
  lemma PollStep(address: string, p: seq<string>, rest: seq<Response>)
    requires Continues(p, rest)
    ensures Poll(address, p, rest) ==
      Poll(address, LeftAfter(p, rest), rest[1..]).After([StatusRequest(address, p)] + Scan(p, rest[0].items).shown + [Sleep])
  {
  }

  /** A status request, then prints, a sleep and `tail`, through the views of a trace. */
  lemma RequestViews(address: string, p: seq<string>, shown: seq<Event>, tail: seq<Event>)
    requires PrintsOnly(shown)
    ensures Queries([StatusRequest(address, p)] + shown + [Sleep] + tail) == [p] + Queries(tail)
    ensures Sleeps([StatusRequest(address, p)] + shown + [Sleep] + tail) == 1 + Sleeps(tail)
    ensures Controls([StatusRequest(address, p)] + shown + [Sleep] + tail) == Controls(tail)
    ensures Visits([StatusRequest(address, p)] + shown + [Sleep] + tail) == Visits(tail)
  {
    var request := [StatusRequest(address, p)];
    assert request[1..] == [];
    assert [Sleep][1..] == [];
    PrintsOnlyViews(shown);
    ViewsAppend(request, shown);
    ViewsAppend(request + shown, [Sleep]);
    ViewsAppend(request + shown + [Sleep], tail);
  }

  lemma ScanPrintsOnly(p: seq<string>, items: seq<ServiceInfo>)
    ensures PrintsOnly(Scan(p, items).shown)
  {
    ScanPrintsRows(p, items);
  }

  /** The same turn through the views of its trace. */
  lemma PollContinues(address: string, p: seq<string>, rest: seq<Response>)
    requires Continues(p, rest)
    ensures Poll(address, p, rest).outcome == Poll(address, LeftAfter(p, rest), rest[1..]).outcome
    ensures Poll(address, p, rest).rest == Poll(address, LeftAfter(p, rest), rest[1..]).rest
    ensures Queries(Poll(address, p, rest).events) == [p] + Queries(Poll(address, LeftAfter(p, rest), rest[1..]).events)
    ensures Sleeps(Poll(address, p, rest).events) == 1 + Sleeps(Poll(address, LeftAfter(p, rest), rest[1..]).events)
    ensures Controls(Poll(address, p, rest).events) == Controls(Poll(address, LeftAfter(p, rest), rest[1..]).events)
    ensures Visits(Poll(address, p, rest).events) == Visits(Poll(address, LeftAfter(p, rest), rest[1..]).events)
  {
    PollStep(address, p, rest);
    ScanPrintsOnly(p, rest[0].items);
    RequestViews(address, p, Scan(p, rest[0].items).shown, Poll(address, LeftAfter(p, rest), rest[1..]).events);
  }

  lemma RequestAlone(address: string, p: seq<string>)
    ensures Queries([StatusRequest(address, p)]) == [p]
    ensures Sleeps([StatusRequest(address, p)]) == 0
    ensures Controls([StatusRequest(address, p)]) == []
    ensures Visits([StatusRequest(address, p)]) == []
  {
    assert [StatusRequest(address, p)][1..] == [];
  }

  /** A turn of the polling loop that ends it: one status request and nothing else counted. */
  lemma PollStops(address: string, p: seq<string>, rest: seq<Response>)
    requires !Continues(p, rest)
    ensures Queries(Poll(address, p, rest).events) == [p]
    ensures Sleeps(Poll(address, p, rest).events) == 0
    ensures Controls(Poll(address, p, rest).events) == []
    ensures Visits(Poll(address, p, rest).events) == []
  {
    var request := [StatusRequest(address, p)];
    RequestAlone(address, p);
    if rest != [] {
      match rest[0]
      case Fault(detail) =>
        var f := [Print(FaultLine(StatusOperation, detail))];
        assert Poll(address, p, rest).events == request + f;
        ViewsAppend(request, f);
      case Answer(items) =>
        var scan := Scan(p, items);
        assert Poll(address, p, rest).events == request + scan.shown;
        ScanPrintsOnly(p, items);
        PrintsOnlyViews(scan.shown);
        ViewsAppend(request, scan.shown);
    }
  }

  /** How a turn that ends the polling loop ends it, and which answers it leaves. */
  lemma PollStopsWith(address: string, p: seq<string>, rest: seq<Response>)
    requires !Continues(p, rest)
    ensures Poll(address, p, rest).rest == if rest == [] then [] else rest[1..]
    ensures Poll(address, p, rest).outcome == Unanswered <==> rest == []
    ensures Poll(address, p, rest).outcome == Done <==>
      (rest != [] && rest[0].Answer? && Scan(p, rest[0].items).pending == Some([]))
  {
  }

  lemma PollUnfolds(address: string, p: seq<string>, rest: seq<Response>)
    ensures Continues(p, rest) ==>
      && Poll(address, p, rest).outcome == Poll(address, LeftAfter(p, rest), rest[1..]).outcome
      && Poll(address, p, rest).rest == Poll(address, LeftAfter(p, rest), rest[1..]).rest
      && Queries(Poll(address, p, rest).events) == [p] + Queries(Poll(address, LeftAfter(p, rest), rest[1..]).events)
      && Sleeps(Poll(address, p, rest).events) == 1 + Sleeps(Poll(address, LeftAfter(p, rest), rest[1..]).events)
      && Controls(Poll(address, p, rest).events) == Controls(Poll(address, LeftAfter(p, rest), rest[1..]).events)
      && Visits(Poll(address, p, rest).events) == Visits(Poll(address, LeftAfter(p, rest), rest[1..]).events)
    ensures !Continues(p, rest) ==>
      && Queries(Poll(address, p, rest).events) == [p] && Sleeps(Poll(address, p, rest).events) == 0
      && Controls(Poll(address, p, rest).events) == [] && Visits(Poll(address, p, rest).events) == []
  {
    if Continues(p, rest) {
      PollContinues(address, p, rest);
    } else {
      PollStops(address, p, rest);
    }
  }

  /**
   * The first poll asks for the whole list it starts from; every later poll
   * asks for exactly what the answer to the previous poll left pending, which
   * is non-empty.
   */
  lemma {:induction false} PollAsksForPending(address: string, p: seq<string>, rest: seq<Response>)
    ensures |PollQueries(address, p, rest)| >= 1 && PollQueries(address, p, rest)[0] == p
    ensures |PollQueries(address, p, rest)| - 1 <= |rest|
    ensures forall j :: 0 <= j < |PollQueries(address, p, rest)| - 1 ==>
      (rest[j].Answer? &&
       Scan(PollQueries(address, p, rest)[j], rest[j].items).pending == Some(PollQueries(address, p, rest)[j + 1]))
    ensures forall j :: 0 < j < |PollQueries(address, p, rest)| ==> PollQueries(address, p, rest)[j] != []
    decreases |rest|
  {
    PollUnfolds(address, p, rest);
    if Continues(p, rest) {
      var left := LeftAfter(p, rest);
      PollAsksForPending(address, left, rest[1..]);
      var qs := PollQueries(address, p, rest);
      var qt := PollQueries(address, left, rest[1..]);
      assert qs == [p] + qt;
      forall j | 0 < j < |qs| - 1
        ensures rest[j] == rest[1..][j - 1] && qs[j] == qt[j - 1] && qs[j + 1] == qt[j]
      {
      }
    }
  }

  lemma PollAsksAtLeastOnce(address: string, p: seq<string>, rest: seq<Response>)
    ensures |PollQueries(address, p, rest)| >= 1
  {
    PollAsksForPending(address, p, rest);
  }

  /** Within one server the pending list only shrinks from poll to poll. */
  lemma PollOnlyShrinks(address: string, p: seq<string>, rest: seq<Response>)
    ensures forall j :: 0 <= j < |PollQueries(address, p, rest)| - 1 ==>
      multiset(PollQueries(address, p, rest)[j + 1]) <= multiset(PollQueries(address, p, rest)[j]) &&
      |PollQueries(address, p, rest)[j + 1]| <= |PollQueries(address, p, rest)[j]|
  {
    PollAsksForPending(address, p, rest);
    var qs := PollQueries(address, p, rest);
    forall j | 0 <= j < |qs| - 1
      ensures multiset(qs[j + 1]) <= multiset(qs[j]) && |qs[j + 1]| <= |qs[j]|
    {
      assert rest[j].Answer? && Scan(qs[j], rest[j].items).pending == Some(qs[j + 1]);
      var items := rest[j].items;
      ScanRemovesStarted(qs[j], items);
      RemoveAllShrinks(qs[j], StartedNames(items));
    }
  }

  /** A sleep falls between consecutive polls and nowhere else: k polls, k - 1 sleeps. */
  lemma {:induction false} SleepsBetweenPolls(address: string, p: seq<string>, rest: seq<Response>)
    ensures Sleeps(Poll(address, p, rest).events) + 1 == |PollQueries(address, p, rest)|
    decreases |rest|
  {
    PollUnfolds(address, p, rest);
    if Continues(p, rest) {
      SleepsBetweenPolls(address, LeftAfter(p, rest), rest[1..]);
    }
  }

  /**
   * One answer per poll, consumed in order: unless the oracle ran out, the
   * k polls used exactly the first k answers.
   */
  lemma {:induction false} PollConsumesAnswers(address: string, p: seq<string>, rest: seq<Response>)
    ensures var r := Poll(address, p, rest);
      var k := |PollQueries(address, p, rest)|;
      if r.outcome == Unanswered then k == |rest| + 1 && r.rest == []
      else k <= |rest| && r.rest == rest[k..]
    decreases |rest|
  {
    if Continues(p, rest) {
      var left := LeftAfter(p, rest);
      PollContinues(address, p, rest);
      PollConsumesAnswers(address, left, rest[1..]);
      var k' := |PollQueries(address, left, rest[1..])|;
      if Poll(address, left, rest[1..]).outcome != Unanswered {
        assert rest[1..][k'..] == rest[k' + 1..];
      }
    } else {
      PollStops(address, p, rest);
      PollStopsWith(address, p, rest);
    }
  }

  /** The `|qs|`-th answer exists, answers the last of the polls `qs`, and empties that poll's list. */
  predicate LastPollEmpties(qs: seq<seq<string>>, rest: seq<Response>) {
    && 1 <= |qs| <= |rest|
    && rest[|qs| - 1].Answer?
    && Scan(qs[|qs| - 1], rest[|qs| - 1].items).pending == Some([])
  }

  lemma LastPollEmptiesShift(p: seq<string>, qt: seq<seq<string>>, rest: seq<Response>)
    requires qt != [] && rest != []
    ensures LastPollEmpties([p] + qt, rest) <==> LastPollEmpties(qt, rest[1..])
  {
    var k := |qt|;
    assert ([p] + qt)[k] == qt[k - 1];
    if k < |rest| {
      assert rest[k] == rest[1..][k - 1];
    }
  }

  /** The polling loop ends with Done exactly when the answer to its last poll empties the list. */
  lemma {:induction false} PollEndsWhenEmpty(address: string, p: seq<string>, rest: seq<Response>)
    ensures Poll(address, p, rest).outcome == Done <==> LastPollEmpties(PollQueries(address, p, rest), rest)
    decreases |rest|
  {
    if Continues(p, rest) {
      var left := LeftAfter(p, rest);
      PollContinues(address, p, rest);
      PollEndsWhenEmpty(address, left, rest[1..]);
      PollAsksAtLeastOnce(address, left, rest[1..]);
      LastPollEmptiesShift(p, PollQueries(address, left, rest[1..]), rest);
    } else {
      PollStops(address, p, rest);
      PollStopsWith(address, p, rest);
    }
  }

  /**
   * Convergence in one poll: the loop ends after its first poll with Done
   * exactly when that poll is answered and the names reported "Started" are
   * exactly the pending names.
   */
  lemma ConvergesInOnePoll(address: string, p: seq<string>, rest: seq<Response>)
    ensures (Poll(address, p, rest).outcome == Done && |PollQueries(address, p, rest)| == 1) <==>
      (rest != [] && rest[0].Answer? && multiset(StartedNames(rest[0].items)) == multiset(p))
  {
    if rest != [] && rest[0].Answer? {
      var items := rest[0].items;
      ScanLeavesNotStarted(p, items);
      var m := multiset(StartedNames(items));
      assert m <= multiset(p) ==> (multiset(p) - m == multiset{} <==> m == multiset(p));
      if Scan(p, items).pending.Some? {
        var left := Scan(p, items).pending.value;
        assert left == [] <==> multiset(left) == multiset{};
      }
    }
    if Continues(p, rest) {
      PollContinues(address, p, rest);
      PollAsksForPending(address, LeftAfter(p, rest), rest[1..]);
    } else {
      PollStops(address, p, rest);
      PollStopsWith(address, p, rest);
    }
  }

  /** A fault on a poll is the last thing that happens; polling never ends with InvalidAction. */
  lemma {:induction false} PollFaultIsLast(address: string, p: seq<string>, rest: seq<Response>)
    ensures var r := Poll(address, p, rest);
      r.outcome.Faulted? ==>
        r.outcome.operation == StatusOperation && |r.events| > 0 &&
        r.events[|r.events| - 1] == Print(FaultLine(StatusOperation, r.outcome.detail))
    ensures Poll(address, p, rest).outcome != InvalidAction
    decreases |rest|
  {
    if Continues(p, rest) {
      PollFaultIsLast(address, LeftAfter(p, rest), rest[1..]);
    }
  }

  /**
   * A service that is never reported "Started" (a misspelled name, or any of
   * Stop and Restart leaving it stopped) is polled with the same list for as
   * long as answers come: the loop never ends by itself.
   */
  lemma {:induction false} NeverStartedNeverEnds(address: string, p: seq<string>, rest: seq<Response>)
    requires p != []
    requires forall i :: 0 <= i < |rest| ==> rest[i].Answer?
    requires forall i, j :: 0 <= i < |rest| && 0 <= j < |rest[i].items| ==> rest[i].items[j].status != Started
    ensures Poll(address, p, rest).outcome == Unanswered
    ensures PollQueries(address, p, rest) == seq(|rest| + 1, _ => p)
    decreases |rest|
  {
    if rest != [] {
      var items := rest[0].items;
      assert forall j :: 0 <= j < |items| ==> items[j].status != Started;
      WaitingPoll(address, p, rest);
      var later := rest[1..];
      assert forall i :: 0 <= i < |later| ==> later[i] == rest[i + 1];
      NeverStartedNeverEnds(address, p, later);
      RepeatedCons(p, |later| + 1);
    } else {
      PollStops(address, p, rest);
      PollStopsWith(address, p, rest);
      assert [p] == seq(1, _ => p);
    }
  }

  /** An answer without "Started" leaves the pending list as it was, and the loop polls it again. */
  lemma WaitingPoll(address: string, p: seq<string>, rest: seq<Response>)
    requires p != [] && rest != [] && rest[0].Answer?
    requires forall j :: 0 <= j < |rest[0].items| ==> rest[0].items[j].status != Started
    ensures Poll(address, p, rest).outcome == Poll(address, p, rest[1..]).outcome
    ensures PollQueries(address, p, rest) == [p] + PollQueries(address, p, rest[1..])
  {
    OtherStatusesKeepPending(p, rest[0].items);
    assert Continues(p, rest) && LeftAfter(p, rest) == p;
    PollContinues(address, p, rest);
  }

  lemma RepeatedCons(p: seq<string>, n: nat)
    ensures [p] + seq(n, _ => p) == seq(n + 1, _ => p)
  {
  }

  lemma {:induction false} PollMakesNoControlOrVisit(address: string, p: seq<string>, rest: seq<Response>)
    ensures Controls(Poll(address, p, rest).events) == []
    ensures Visits(Poll(address, p, rest).events) == []
    decreases |rest|
  {
    PollUnfolds(address, p, rest);
    if Continues(p, rest) {
      PollMakesNoControlOrVisit(address, LeftAfter(p, rest), rest[1..]);
    }
  }

  // One server.

  lemma ControlReportPrintsOnly(items: seq<ServiceInfo>)
    ensures PrintsOnly(ControlReport(items))
  {
  }

  /**
   * With an answered control call, the server's views are those of polling
   * from `[service]`: one control request for `[service]` with the action,
   * and the first poll asks for `[service]`.
   */
  lemma EndpointPollsFromService(action: Action, service: string, address: string, items: seq<ServiceInfo>, rest: seq<Response>)
    ensures var e := Endpoint(action, service, address, [Answer(items)] + rest);
      var poll := Poll(address, [service], rest);
      && e.outcome == poll.outcome && e.rest == poll.rest
      && Queries(e.events) == Queries(poll.events)
      && Sleeps(e.events) == Sleeps(poll.events)
      && Controls(e.events) == [ControlRequest(address, action, [service])]
      && Visits(e.events) == []
      && Queries(e.events)[0] == [service]
  {
    var request := [ControlRequest(address, action, [service])];
    var poll := Poll(address, [service], rest);
    assert ([Answer(items)] + rest)[1..] == rest;
    ControlReportPrintsOnly(items);
    PrintsOnlyViews(ControlReport(items));
    ViewsAppend(request, ControlReport(items));
    ViewsAppend(request + ControlReport(items), poll.events);
    PollAsksForPending(address, [service], rest);
    PollMakesNoControlOrVisit(address, [service], rest);
  }

  /** The statuses returned by the control call are printed and change nothing else. */
  lemma ControlStatusesOnlyPrinted(action: Action, service: string, address: string,
                                   x: seq<ServiceInfo>, y: seq<ServiceInfo>, rest: seq<Response>)
    ensures var ex := Endpoint(action, service, address, [Answer(x)] + rest);
      var ey := Endpoint(action, service, address, [Answer(y)] + rest);
      && ex.outcome == ey.outcome && ex.rest == ey.rest
      && Queries(ex.events) == Queries(ey.events)
      && Sleeps(ex.events) == Sleeps(ey.events)
  {
    EndpointPollsFromService(action, service, address, x, rest);
    EndpointPollsFromService(action, service, address, y, rest);
  }

  /** What is awaited does not depend on the action: Stop and Restart also wait for "Started". */
  lemma AwaitingIgnoresAction(a: Action, b: Action, service: string, address: string, rest: seq<Response>)
    ensures var ea := Endpoint(a, service, address, rest);
      var eb := Endpoint(b, service, address, rest);
      && ea.outcome == eb.outcome && ea.rest == eb.rest
      && Queries(ea.events) == Queries(eb.events)
      && Sleeps(ea.events) == Sleeps(eb.events)
  {
    if rest != [] {
      match rest[0]
      case Fault(detail) =>
        ViewsAppend([ControlRequest(address, a, [service])], [Print(FaultLine(ControlOperation, detail))]);
        ViewsAppend([ControlRequest(address, b, [service])], [Print(FaultLine(ControlOperation, detail))]);
      case Answer(items) =>
        assert rest == [Answer(items)] + rest[1..];
        EndpointPollsFromService(a, service, address, items, rest[1..]);
        EndpointPollsFromService(b, service, address, items, rest[1..]);
    }
  }

  /** A fault on the control call ends the server's part before any poll. */
  lemma ControlFaultBeforePolling(action: Action, service: string, address: string, detail: string, rest: seq<Response>)
    ensures var e := Endpoint(action, service, address, [Fault(detail)] + rest);
      && e.outcome == Faulted(ControlOperation, detail)
      && Queries(e.events) == [] && Sleeps(e.events) == 0
      && e.events[|e.events| - 1] == Print(FaultLine(ControlOperation, detail))
      && e.rest == rest
  {
    var request := [ControlRequest(address, action, [service])];
    var report := [Print(FaultLine(ControlOperation, detail))];
    ViewsAppend(request, report);
    assert ([Fault(detail)] + rest)[1..] == rest;
  }

  /** Every server's part: one control request for `[service]`, no announcement, and a fault is its last event. */
  lemma EndpointShape(action: Action, service: string, address: string, rest: seq<Response>)
    ensures var e := Endpoint(action, service, address, rest);
      && Controls(e.events) == [ControlRequest(address, action, [service])]
      && Visits(e.events) == []
      && |e.events| > 0
      && (e.outcome.Faulted? ==> e.events[|e.events| - 1] == Print(FaultLine(e.outcome.operation, e.outcome.detail)))
      && e.outcome != InvalidAction
  {
    var request := [ControlRequest(address, action, [service])];
    assert request[1..] == [];
    if rest != [] {
      match rest[0]
      case Fault(detail) =>
        ViewsAppend(request, [Print(FaultLine(ControlOperation, detail))]);
      case Answer(items) =>
        assert rest == [Answer(items)] + rest[1..];
        EndpointPollsFromService(action, service, address, items, rest[1..]);
        PollFaultIsLast(address, [service], rest[1..]);
        var poll := Poll(address, [service], rest[1..]);
        var e := Endpoint(action, service, address, rest);
        assert e.events == (request + ControlReport(items)) + poll.events;
        if poll.outcome.Faulted? {
          assert e.events[|e.events| - 1] == poll.events[|poll.events| - 1];
        }
    }
  }

  // The whole run.

  /** A blank line ends the run with the warning and nothing else. */
  lemma RunBlank(action: Action, service: string, lines: seq<string>, rest: seq<Response>)
    requires lines != [] && Strip(lines[0]) == []
    ensures RunFrom(action, service, lines, rest) == RunResult(Done, [Print(EmptyLineWarning())])
    ensures Endpoints(lines) == []
  {
  }

  /** A usable line: announce it, serve it, and go on only if that ended with Done. */
  lemma RunVisit(action: Action, service: string, lines: seq<string>, rest: seq<Response>)
    requires lines != [] && Strip(lines[0]) != []
    ensures var e := Endpoint(action, service, Strip(lines[0]), rest);
      RunFrom(action, service, lines, rest) ==
        if e.outcome == Done then RunFrom(action, service, lines[1..], e.rest).After([Visit(Strip(lines[0]))] + e.events)
        else RunResult(e.outcome, [Visit(Strip(lines[0]))] + e.events)
    ensures Endpoints(lines) == [Strip(lines[0])] + Endpoints(lines[1..])
  {
  }

  /** An announcement, a server's part and what follows, through the views of a trace. */
  lemma VisitViews(address: string, es: seq<Event>, tail: seq<Event>)
    ensures Visits([Visit(address)] + es + tail) == [address] + Visits(es) + Visits(tail)
    ensures Controls([Visit(address)] + es + tail) == Controls(es) + Controls(tail)
    ensures Queries([Visit(address)] + es + tail) == Queries(es) + Queries(tail)
    ensures Sleeps([Visit(address)] + es + tail) == Sleeps(es) + Sleeps(tail)
  {
    assert [Visit(address)][1..] == [];
    ViewsAppend([Visit(address)], es);
    ViewsAppend([Visit(address)] + es, tail);
  }

  /** A usable line whose server ends with Done: the run's views are the server's, then those of the rest of the run. */
  lemma RunOn(action: Action, service: string, lines: seq<string>, rest: seq<Response>)
    requires lines != [] && Strip(lines[0]) != []
    requires Endpoint(action, service, Strip(lines[0]), rest).outcome == Done
    ensures var e := Endpoint(action, service, Strip(lines[0]), rest);
      var r := RunFrom(action, service, lines, rest);
      var t := RunFrom(action, service, lines[1..], e.rest);
      && r.outcome == t.outcome
      && Visits(r.events) == [Strip(lines[0])] + Visits(e.events) + Visits(t.events)
      && Controls(r.events) == Controls(e.events) + Controls(t.events)
      && Queries(r.events) == Queries(e.events) + Queries(t.events)
      && Sleeps(r.events) == Sleeps(e.events) + Sleeps(t.events)
  {
    var e := Endpoint(action, service, Strip(lines[0]), rest);
    RunVisit(action, service, lines, rest);
    VisitViews(Strip(lines[0]), e.events, RunFrom(action, service, lines[1..], e.rest).events);
  }

  /** The servers a run visits: a prefix of the server list, all of it when the run ends with Done. */
  predicate VisitedPrefix(lines: seq<string>, r: RunResult) {
    PrefixVisited(Endpoints(lines), r)
  }

  /** The visits of `r` are a prefix of `ends`: all of it when `r` is Done, at least one address otherwise. */
  predicate PrefixVisited(ends: seq<string>, r: RunResult) {
    var v := Visits(r.events);
    && |v| <= |ends| && v == ends[..|v|]
    && (r.outcome == Done ==> v == ends)
    && (r.outcome != Done ==> |v| > 0)
  }

  /** One control request per visit, for `[service]` with the action, in the order of the visits. */
  predicate ControlPerVisit(action: Action, service: string, r: RunResult) {
    var v := Visits(r.events);
    && |Controls(r.events)| == |v|
    && forall i :: 0 <= i < |v| ==> Controls(r.events)[i] == ControlRequest(v[i], action, [service])
  }

  /** The visits and control requests of a run, as stated by VisitsFollowServerList. */
  predicate VisitsFollow(action: Action, service: string, lines: seq<string>, r: RunResult) {
    VisitedPrefix(lines, r) && ControlPerVisit(action, service, r)
  }

  lemma VisitedPrefixOn(lines: seq<string>, e: Phase, tail: RunResult)
    requires lines != [] && Strip(lines[0]) != []
    requires Visits(e.events) == []
    requires VisitedPrefix(lines[1..], tail)
    ensures VisitedPrefix(lines, tail.After([Visit(Strip(lines[0]))] + e.events))
  {
    EndpointsCons(lines);
    PrefixVisitedOn(Strip(lines[0]), Endpoints(lines[1..]), e, tail);
  }

  lemma EndpointsCons(lines: seq<string>)
    requires lines != [] && Strip(lines[0]) != []
    ensures Endpoints(lines) == [Strip(lines[0])] + Endpoints(lines[1..])
  {
  }

  lemma PrefixVisitedOn(address: string, later: seq<string>, e: Phase, tail: RunResult)
    requires Visits(e.events) == []
    requires PrefixVisited(later, tail)
    ensures PrefixVisited([address] + later, tail.After([Visit(address)] + e.events))
  {
    var r := tail.After([Visit(address)] + e.events);
    VisitViews(address, e.events, tail.events);
    var v := Visits(tail.events);
    assert Visits(r.events) == [address] + v;
    PrefixCons(address, later, v);
  }

  lemma PrefixCons(x: string, later: seq<string>, v: seq<string>)
    requires |v| <= |later| && v == later[..|v|]
    ensures |[x] + v| <= |[x] + later| && [x] + v == ([x] + later)[..|[x] + v|]
  {
    assert ([x] + later)[..1 + |v|] == [x] + later[..|v|];
  }

  lemma ControlPerVisitOn(action: Action, service: string, address: string, e: Phase, tail: RunResult)
    requires Controls(e.events) == [ControlRequest(address, action, [service])] && Visits(e.events) == []
    requires ControlPerVisit(action, service, tail)
    ensures ControlPerVisit(action, service, tail.After([Visit(address)] + e.events))
  {
    var r := tail.After([Visit(address)] + e.events);
    VisitViews(address, e.events, tail.events);
    var v := Visits(tail.events);
    var c := Controls(tail.events);
    assert Visits(r.events) == [address] + v;
    assert Controls(r.events) == [ControlRequest(address, action, [service])] + c;
  }

  /** The visits of a run that goes on past its first server. */
  lemma VisitsFollowOn(action: Action, service: string, lines: seq<string>, e: Phase, tail: RunResult)
    requires lines != [] && Strip(lines[0]) != []
    requires Controls(e.events) == [ControlRequest(Strip(lines[0]), action, [service])] && Visits(e.events) == []
    requires VisitsFollow(action, service, lines[1..], tail)
    ensures VisitsFollow(action, service, lines, tail.After([Visit(Strip(lines[0]))] + e.events))
  {
    VisitedPrefixOn(lines, e, tail);
    ControlPerVisitOn(action, service, Strip(lines[0]), e, tail);
  }

  /** The visits of a run that stops at its first server. */
  lemma VisitsFollowStop(action: Action, service: string, lines: seq<string>, e: Phase)
    requires lines != [] && Strip(lines[0]) != []
    requires e.outcome != Done
    requires Controls(e.events) == [ControlRequest(Strip(lines[0]), action, [service])] && Visits(e.events) == []
    ensures VisitsFollow(action, service, lines, RunResult(e.outcome, [Visit(Strip(lines[0]))] + e.events))
  {
    var address := Strip(lines[0]);
    VisitViews(address, e.events, []);
    assert [Visit(address)] + e.events + [] == [Visit(address)] + e.events;
    assert Endpoints(lines) == [address] + Endpoints(lines[1..]);
    assert Endpoints(lines)[..1] == [address];
  }

  /**
   * The servers are visited in file order, each once, as the enumeration of
   * the server list gives them; a run that ends with Done has visited all of
   * them, one that ends otherwise has visited at least one, and each visit
   * sent one control request for `[service]` with the action of the run.
   */
  lemma {:induction false} VisitsFollowServerList(action: Action, service: string, lines: seq<string>, rest: seq<Response>)
    ensures VisitsFollow(action, service, lines, RunFrom(action, service, lines, rest))
    decreases |lines|
  {
    if lines == [] {
      assert Endpoints(lines) == [];
    } else if Strip(lines[0]) == [] {
      RunBlank(action, service, lines, rest);
      PrintsOnlyViews([Print(EmptyLineWarning())]);
    } else {
      var address := Strip(lines[0]);
      var e := Endpoint(action, service, address, rest);
      RunVisit(action, service, lines, rest);
      EndpointShape(action, service, address, rest);
      if e.outcome == Done {
        VisitsFollowServerList(action, service, lines[1..], e.rest);
        VisitsFollowOn(action, service, lines, e, RunFrom(action, service, lines[1..], e.rest));
      } else {
        VisitsFollowStop(action, service, lines, e);
      }
    }
  }

  lemma LastOfAppend(a: seq<Event>, b: seq<Event>)
    requires b != []
    ensures (a + b)[|a + b| - 1] == b[|b| - 1]
  {
  }

  /**
   * A failure ends the run: a fault on either call is the last event (no
   * later server is contacted) and, like a ValueError, exits with status 1.
   */
  /** A faulted outcome comes with its fault line as the last event. */
  predicate EndsWithFaultLine(o: Outcome, es: seq<Event>) {
    o.Faulted? ==> |es| > 0 && es[|es| - 1] == Print(FaultLine(o.operation, o.detail))
  }

  lemma FaultLineStaysLast(o: Outcome, head: seq<Event>, es: seq<Event>)
    requires EndsWithFaultLine(o, es)
    ensures EndsWithFaultLine(o, head + es)
  {
    if o.Faulted? {
      LastOfAppend(head, es);
    }
  }

  lemma {:induction false} FailureEndsRun(action: Action, service: string, lines: seq<string>, rest: seq<Response>)
    ensures var r := RunFrom(action, service, lines, rest);
      EndsWithFaultLine(r.outcome, r.events)
    ensures RunFrom(action, service, lines, rest).outcome != InvalidAction
    decreases |lines|
  {
    if lines != [] && Strip(lines[0]) != [] {
      var address := Strip(lines[0]);
      var e := Endpoint(action, service, address, rest);
      var head := [Visit(address)] + e.events;
      RunVisit(action, service, lines, rest);
      EndpointShape(action, service, address, rest);
      if e.outcome == Done {
        var tail := RunFrom(action, service, lines[1..], e.rest);
        FailureEndsRun(action, service, lines[1..], e.rest);
        FaultLineStaysLast(tail.outcome, head, tail.events);
        assert RunFrom(action, service, lines, rest) == RunResult(tail.outcome, head + tail.events);
      } else {
        assert EndsWithFaultLine(e.outcome, e.events);
        FaultLineStaysLast(e.outcome, [Visit(address)], e.events);
      }
    }
  }

  /** An invalid action token does nothing but exit with status 1. */
  lemma InvalidTokenDoesNothing(arg: Option<string>, service: string, lines: seq<string>, responses: seq<Response>)
    requires arg.Some? && arg.value !in AcceptedTokens()
    ensures Script(arg, service, lines, responses) == RunResult(InvalidAction, [])
    ensures ExitStatus(Script(arg, service, lines, responses).outcome) == Some(1)
  {
    ClassifyRejects(arg.value);
  }
}
