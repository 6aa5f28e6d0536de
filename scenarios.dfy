/**
 * End-to-end runs of the script, worked out over the specification
 * functions: a server that reports its service stopped `n` times and then
 * "Started" converges after n + 1 polls with n sleeps between them; a
 * Restart over two servers converges after one and after three polls; a
 * control call that faults ends the run before any poll.
 */
module Scenarios {
  import opened Maybe
  import opened ControlAction
  import opened ServerList
  import opened PendingList
  import opened Reconcile
  import opened Properties

  /** An answer listing one service with its status. */
  function Reported(service: string, status: string): Response {
    Answer([ServiceInfo(service, status)])
  }

  /** `n` answers that all report `service` with `status`. */
  function Waiting(service: string, status: string, n: nat): seq<Response> {
    seq(n, _ => Reported(service, status))
  }

  /** The answers one server gives: the control call, `n` polls that report `status`, one that reports "Started". */
  function ServerAnswers(service: string, control: string, status: string, n: nat): seq<Response> {
    [Reported(service, control)] + Waiting(service, status, n) + [Reported(service, Started)]
  }

  /** One poll answered "Started": Done after a single status request. */
  lemma ConvergesAt(address: string, service: string, rest: seq<Response>)
    ensures var r := Poll(address, [service], [Reported(service, Started)] + rest);
      && r.outcome == Done && r.rest == rest
      && Queries(r.events) == [[service]] && Sleeps(r.events) == 0
  {
    var rs := [Reported(service, Started)] + rest;
    assert rs[0] == Reported(service, Started) && rs[1..] == rest;
    assert Remove([service], service) == Some([]);
    assert Scan([service], rs[0].items).pending == Some([]);
    PollStops(address, [service], rs);
    PollStopsWith(address, [service], rs);
  }

  /** An answer reporting another status: sleep and poll again for the same list. */
  lemma OtherStatusWaits(address: string, service: string, status: string, rest: seq<Response>)
    requires status != Started
    ensures var r := Poll(address, [service], [Reported(service, status)] + rest);
      var t := Poll(address, [service], rest);
      && r.outcome == t.outcome && r.rest == t.rest
      && Queries(r.events) == [[service]] + Queries(t.events)
      && Sleeps(r.events) == 1 + Sleeps(t.events)
  {
    var rs := [Reported(service, status)] + rest;
    assert rs[0] == Reported(service, status) && rs[1..] == rest;
    OtherStatusesKeepPending([service], rs[0].items);
    assert Continues([service], rs) && LeftAfter([service], rs) == [service];
    PollContinues(address, [service], rs);
  }

  /** `n` answers reporting another status, then "Started": n + 1 polls for `[service]` and n sleeps. */
  lemma {:induction false} PollsUntilStarted(address: string, service: string, status: string, n: nat, rest: seq<Response>)
    requires status != Started
    ensures var r := Poll(address, [service], Waiting(service, status, n) + [Reported(service, Started)] + rest);
      && r.outcome == Done && r.rest == rest
      && Queries(r.events) == seq(n + 1, _ => [service]) && Sleeps(r.events) == n
  {
    var started := [Reported(service, Started)] + rest;
    if n == 0 {
      assert Waiting(service, status, n) + [Reported(service, Started)] + rest == started;
      ConvergesAt(address, service, rest);
      assert [[service]] == seq(1, _ => [service]);
    } else {
      var tail := Waiting(service, status, n - 1) + [Reported(service, Started)] + rest;
      assert Waiting(service, status, n) == [Reported(service, status)] + Waiting(service, status, n - 1);
      assert Waiting(service, status, n) + [Reported(service, Started)] + rest == [Reported(service, status)] + tail;
      OtherStatusWaits(address, service, status, tail);
      PollsUntilStarted(address, service, status, n - 1, rest);
      assert [[service]] + seq(n, _ => [service]) == seq(n + 1, _ => [service]);
    }
  }

  lemma AnswersSplit(service: string, control: string, status: string, n: nat, rest: seq<Response>)
    ensures ServerAnswers(service, control, status, n) + rest ==
      [Reported(service, control)] + (Waiting(service, status, n) + [Reported(service, Started)] + rest)
  {
  }

  /** A server that answers its control call and then converges after n + 1 polls. */
  lemma EndpointConverges(action: Action, service: string, address: string, control: string, status: string,
                          n: nat, rest: seq<Response>)
    requires status != Started
    ensures var e := Endpoint(action, service, address, ServerAnswers(service, control, status, n) + rest);
      && e.outcome == Done && e.rest == rest
      && Queries(e.events) == seq(n + 1, _ => [service]) && Sleeps(e.events) == n
      && Controls(e.events) == [ControlRequest(address, action, [service])] && Visits(e.events) == []
  {
    var polls := Waiting(service, status, n) + [Reported(service, Started)] + rest;
    AnswersSplit(service, control, status, n, rest);
    EndpointPollsFromService(action, service, address, [ServiceInfo(service, control)], polls);
    PollsUntilStarted(address, service, status, n, rest);
  }

  /** The two servers of the run below, one per line of the server list, with a trailing newline. */
  const First := "10.0.0.1"
  const Second := "10.0.0.2"

  function TwoServers(): seq<string> {
    [First + "\n", Second + "\n"]
  }

  lemma ServerLines()
    ensures Strip(First + "\n") == First && Strip(Second + "\n") == Second
  {
    var a := First + "\n";
    var b := Second + "\n";
    assert !IsSpace(a[0]) && IsSpace(a[8]) && !IsSpace(a[7]);
    assert SkipSpaces(a, 0) == 0 && DropSpaces(a, 0, 9) == 8;
    assert !IsSpace(b[0]) && IsSpace(b[8]) && !IsSpace(b[7]);
    assert SkipSpaces(b, 0) == 0 && DropSpaces(b, 0, 9) == 8;
  }

  /**
   * The answers, in the order the calls are made: the control call and one
   * poll for the first server, the control call and three polls for the
   * second; every control call reports "Stopped".
   */
  function TwoServerAnswers(): seq<Response> {
    ServerAnswers("Tftp", "Stopped", "Stopped", 0) + ServerAnswers("Tftp", "Stopped", "Stopped", 2)
  }

  /** Without an action argument the script runs Restart. */
  lemma DefaultRuns(service: string, lines: seq<string>, responses: seq<Response>)
    ensures Script(None, service, lines, responses) == RunFrom(Restart, service, lines, responses)
  {
    assert Normalize(None) == Some(Restart);
  }

  /** A line naming a server that converges after n + 1 polls: the run goes on with the next line. */
  lemma ConvergedLine(action: Action, service: string, lines: seq<string>, address: string,
                      control: string, status: string, n: nat, more: seq<Response>)
    requires lines != [] && Strip(lines[0]) == address && address != []
    requires status != Started
    ensures var r := RunFrom(action, service, lines, ServerAnswers(service, control, status, n) + more);
      var t := RunFrom(action, service, lines[1..], more);
      && r.outcome == t.outcome
      && Visits(r.events) == [address] + Visits(t.events)
      && Controls(r.events) == [ControlRequest(address, action, [service])] + Controls(t.events)
      && Queries(r.events) == seq(n + 1, _ => [service]) + Queries(t.events)
      && Sleeps(r.events) == n + Sleeps(t.events)
  {
    EndpointConverges(action, service, address, control, status, n, more);
    RunOn(action, service, lines, ServerAnswers(service, control, status, n) + more);
  }

  lemma TwoParts(unused: seq<Response>)
    ensures TwoServerAnswers() + unused ==
      ServerAnswers("Tftp", "Stopped", "Stopped", 0) + (ServerAnswers("Tftp", "Stopped", "Stopped", 2) + unused)
    ensures TwoServers()[1..] == [Second + "\n"] && TwoServers()[1..][1..] == []
  {
  }

  lemma Repeated(x: seq<string>, m: nat, n: nat)
    ensures seq(m, _ => x) + seq(n, _ => x) == seq(m + n, _ => x)
  {
  }

  /** The run over both lines, from what each server does; answers beyond those are never asked for. */
  lemma TwoServersRun(unused: seq<Response>)
    ensures var r := RunFrom(Restart, "Tftp", TwoServers(), TwoServerAnswers() + unused);
      && r.outcome == Done
      && Visits(r.events) == [First, Second]
      && Controls(r.events) == [ControlRequest(First, Restart, ["Tftp"]), ControlRequest(Second, Restart, ["Tftp"])]
      && Queries(r.events) == seq(4, _ => ["Tftp"])
      && Sleeps(r.events) == 2
  {
    var lines := TwoServers();
    var second := ServerAnswers("Tftp", "Stopped", "Stopped", 2);
    ServerLines();
    TwoParts(unused);
    ConvergedLine(Restart, "Tftp", lines, First, "Stopped", "Stopped", 0, second + unused);
    ConvergedLine(Restart, "Tftp", lines[1..], Second, "Stopped", "Stopped", 2, unused);
    Repeated(["Tftp"], 1, 3);
    assert seq(3, _ => ["Tftp"]) + [] == seq(3, _ => ["Tftp"]);
  }

  /**
   * Restart of "Tftp" on two servers: the first converges in one poll, the
   * second in three with two sleeps between them; both are visited in order
   * and the run exits with status 0.
   */
  lemma TwoServersRestart(unused: seq<Response>)
    ensures var r := Script(None, "Tftp", TwoServers(), TwoServerAnswers() + unused);
      && r.outcome == Done && ExitStatus(r.outcome) == Some(0)
      && Visits(r.events) == [First, Second]
      && Controls(r.events) == [ControlRequest(First, Restart, ["Tftp"]), ControlRequest(Second, Restart, ["Tftp"])]
      && Queries(r.events) == seq(4, _ => ["Tftp"])
      && Sleeps(r.events) == 2
  {
    DefaultRuns("Tftp", TwoServers(), TwoServerAnswers() + unused);
    TwoServersRun(unused);
  }

  /** A line naming a server whose control call faults: the run ends there, before any poll. */
  lemma FaultedLine(action: Action, service: string, lines: seq<string>, address: string, detail: string, rest: seq<Response>)
    requires lines != [] && Strip(lines[0]) == address && address != []
    ensures var r := RunFrom(action, service, lines, [Fault(detail)] + rest);
      && r.outcome == Faulted(ControlOperation, detail)
      && Queries(r.events) == [] && Sleeps(r.events) == 0
      && Visits(r.events) == [address]
  {
    var all := [Fault(detail)] + rest;
    ControlFaultBeforePolling(action, service, address, detail, rest);
    EndpointShape(action, service, address, all);
    RunVisit(action, service, lines, all);
    var e := Endpoint(action, service, address, all);
    VisitViews(address, e.events, []);
    assert [Visit(address)] + e.events + [] == [Visit(address)] + e.events;
  }

  /** A single server whose control call faults: no poll is made and the run exits with status 1. */
  lemma ControlFaultExitsOne(detail: string, rest: seq<Response>)
    ensures var r := Script(None, "Tftp", [First + "\n"], [Fault(detail)] + rest);
      && r.outcome == Faulted(ControlOperation, detail) && ExitStatus(r.outcome) == Some(1)
      && Queries(r.events) == [] && Sleeps(r.events) == 0
      && Visits(r.events) == [First]
  {
    DefaultRuns("Tftp", [First + "\n"], [Fault(detail)] + rest);
    ServerLines();
    FaultedLine(Restart, "Tftp", [First + "\n"], First, detail, rest);
  }
}
