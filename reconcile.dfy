/**
 * The reconciliation run. For every server address the script sends one
 * control request for the single-element service list, prints the statuses
 * it gets back, then polls with the names still pending, removing a name
 * each time it is reported exactly "Started", sleeping between polls while
 * anything is pending. A fault on either call ends the whole run with exit
 * status 1.
 *
 * The server is an oracle: the finite sequence of its answers, consumed one
 * per call in the order the calls are made. What the script prints, sends and
 * sleeps is recorded as a trace of events.
 */
module Reconcile {
  import opened Maybe
  import opened ControlAction
  import opened ServerList
  import opened Report
  import opened PendingList

  /** One `item` of a `ServiceInfoList`. */
  datatype ServiceInfo = ServiceInfo(name: string, status: string)

  /** What one call returns: a SOAP fault, or the list of service statuses. */
  datatype Response = Fault(message: string) | Answer(items: seq<ServiceInfo>)

  datatype Event =
    | Visit(address: string)                                             // the banner for a server
    | ControlRequest(address: string, control: Action, names: seq<string>) // soapDoControlServices
    | StatusRequest(address: string, names: seq<string>)                  // soapGetServiceStatus
    | Print(text: string)                                                 // one printed line
    | Sleep                                                               // time.sleep between polls

  /**
   * How a run (or one server's part of it) ends. Done is a converged server or
   * a run that reached the end of the list; Unanswered means the oracle had no
   * answer left for a call that was made.
   */
  datatype Outcome =
    | Done
    | Faulted(operation: string, detail: string)
    | ValueError
    | Unanswered
    | InvalidAction

  /** The events of one server's part of a run, and the answers left for the rest. */
  datatype Phase = Phase(outcome: Outcome, events: seq<Event>, rest: seq<Response>) {
    function After(earlier: seq<Event>): Phase {
      Phase(outcome, earlier + events, rest)
    }
  }

  /** One pass over a status list: what is still pending (None after a ValueError) and the rows printed. */
  datatype ScanResult = ScanResult(pending: Option<seq<string>>, shown: seq<Event>) {
    function After(earlier: seq<Event>): ScanResult {
      ScanResult(pending, earlier + shown)
    }
  }

  datatype RunResult = RunResult(outcome: Outcome, events: seq<Event>) {
    function After(earlier: seq<Event>): RunResult {
      RunResult(outcome, earlier + events)
    }
  }

  /** The one status that takes a name off the pending list, whatever the action. */
  const Started: string := "Started"
  const ControlOperation: string := "soapDoControlServices"
  const StatusOperation: string := "soapGetServiceStatus"
  const ServerListPath: string := "./ucmlist.txt"

  /** The process exit status of an outcome; None while the script would still be waiting. */
  function ExitStatus(o: Outcome): Option<int> {
    match o
    case Done => Some(0)
    case Faulted(_, _) => Some(1)
    case ValueError => Some(1)
    case InvalidAction => Some(1)
    case Unanswered => None
  }

  function FaultLine(operation: string, detail: string): string {
    "Zeep error: " + operation + ": " + detail
  }

  function EmptyLineWarning(): string {
    "\nWarning: Empty line in " + ServerListPath + "\n"
  }

  /** `('=' * 57) + '\n'`. */
  function Separator(): string {
    seq(57, _ => '=') + "\n"
  }

  function RowEvent(info: ServiceInfo): Event {
    Print(Row(info.name, info.status))
  }

  function RowEvents(items: seq<ServiceInfo>): seq<Event> {
    seq(|items|, i requires 0 <= i < |items| => RowEvent(items[i]))
  }

  /** The report of the control call: a heading, the separator and one row per status. */
  function ControlReport(items: seq<ServiceInfo>): seq<Event> {
    [Print("Service Status"), Print(Separator())] + RowEvents(items)
  }

  /**
   * The loop over one poll's statuses: print the row, and when the status is
   * "Started" remove the name from the pending list.
   */
  function Scan(pending: seq<string>, items: seq<ServiceInfo>): ScanResult
    decreases |items|
  {
    if items == [] then ScanResult(Some(pending), [])
    else
      var shown := [RowEvent(items[0])];
      if items[0].status == Started then
        match Remove(pending, items[0].name)
        case None => ScanResult(None, shown)
        case Some(left) => Scan(left, items[1..]).After(shown)
      else Scan(pending, items[1..]).After(shown)
  }

  /** The polling loop for one server, from the list `pending`, with the answers `rest`. */
  function Poll(address: string, pending: seq<string>, rest: seq<Response>): Phase
    decreases |rest|
  {
    var request := [StatusRequest(address, pending)];
    if rest == [] then Phase(Unanswered, request, [])
    else
      match rest[0]
      case Fault(detail) =>
        Phase(Faulted(StatusOperation, detail), request + [Print(FaultLine(StatusOperation, detail))], rest[1..])
      case Answer(items) =>
        var scan := Scan(pending, items);
        var shown := request + scan.shown;
        match scan.pending
        case None => Phase(ValueError, shown, rest[1..])
        case Some(left) =>
          if |left| > 0 then Poll(address, left, rest[1..]).After(shown + [Sleep])
          else Phase(Done, shown, rest[1..])
  }

  /** One server: the control request for `[service]`, its report, then polling from `[service]`. */
  function Endpoint(action: Action, service: string, address: string, rest: seq<Response>): Phase {
    var request := [ControlRequest(address, action, [service])];
    if rest == [] then Phase(Unanswered, request, [])
    else
      match rest[0]
      case Fault(detail) =>
        Phase(Faulted(ControlOperation, detail), request + [Print(FaultLine(ControlOperation, detail))], rest[1..])
      case Answer(items) =>
        Poll(address, [service], rest[1..]).After(request + ControlReport(items))
  }

  /** The loop over the server list from line `lines[0]` on. */
  function RunFrom(action: Action, service: string, lines: seq<string>, rest: seq<Response>): RunResult
    decreases |lines|
  {
    if lines == [] then RunResult(Done, [])
    else
      var address := Strip(lines[0]);
      if |address| == 0 then RunResult(Done, [Print(EmptyLineWarning())])
      else
        var e := Endpoint(action, service, address, rest);
        var visited := [Visit(address)] + e.events;
        if e.outcome == Done then RunFrom(action, service, lines[1..], e.rest).After(visited)
        else RunResult(e.outcome, visited)
  }

  /** The whole script from its action argument on. */
  function Script(arg: Option<string>, service: string, lines: seq<string>, responses: seq<Response>): RunResult {
    match Normalize(arg)
    case None => RunResult(InvalidAction, [])
    case Some(action) => RunFrom(action, service, lines, responses)
  }

  lemma Concat3<T>(a: seq<T>, b: seq<T>, c: seq<T>)
    ensures a + (b + c) == (a + b) + c
  {
  }

  /** The loop over the statuses of one poll, removing from the pending list in place. */
  method ScanStatuses(pending: seq<string>, items: seq<ServiceInfo>) returns (left: seq<string>, ok: bool, shown: seq<Event>)
    ensures Scan(pending, items) == ScanResult(if ok then Some(left) else None, shown)
  {
    left, ok, shown := pending, true, [];
    for j := 0 to |items|
      invariant Scan(pending, items) == Scan(left, items[j..]).After(shown)
    {
      ghost var before, step := shown, Scan(left, items[j..]);
      var row := [RowEvent(items[j])];
      assert items[j..][1..] == items[j + 1..];
      shown := shown + row;
      if items[j].status == Started {
        var removed := Remove(left, items[j].name);
        if removed.None? {
          assert step == ScanResult(None, row);
          ok := false;
          return;
        }
        left := removed.value;
      }
      ghost var tail := Scan(left, items[j + 1..]);
      assert step == tail.After(row);
      Concat3(before, row, tail.shown);
    }
  }

  /** `while True`: poll with the pending names until none is left. */
  method PollUntilStarted(address: string, pending: seq<string>, rest: seq<Response>)
    returns (outcome: Outcome, events: seq<Event>, rest': seq<Response>)
    ensures Phase(outcome, events, rest') == Poll(address, pending, rest)
  {
    var serviceList := pending;
    rest' := rest;
    events := [];
    while true
      invariant Poll(address, pending, rest) == Poll(address, serviceList, rest').After(events)
      decreases |rest'|
    {
      ghost var before, step := events, Poll(address, serviceList, rest');
      var request := [StatusRequest(address, serviceList)];
      events := events + request;
      if rest' == [] {
        outcome := Unanswered;
        return;
      }
      var response := rest'[0];
      rest' := rest'[1..];
      if response.Fault? {
        var report := [Print(FaultLine(StatusOperation, response.message))];
        Concat3(before, request, report);
        events := events + report;
        outcome := Faulted(StatusOperation, response.message);
        return;
      }
      var left, ok, shown := ScanStatuses(serviceList, response.items);
      Concat3(before, request, shown);
      events := events + shown;
      if !ok {
        outcome := ValueError;
        return;
      }
      serviceList := left;
      if |serviceList| > 0 {
        ghost var tail := Poll(address, serviceList, rest');
        assert step == tail.After(request + shown + [Sleep]);
        Concat3(before, request + shown + [Sleep], tail.events);
        Concat3(before, request + shown, [Sleep]);
        events := events + [Sleep];
      } else {
        break;
      }
    }
    outcome := Done;
  }

  /** One server: reset the pending list, send the control request, report, poll. */
  method ReconcileEndpoint(action: Action, service: string, address: string, rest: seq<Response>)
    returns (outcome: Outcome, events: seq<Event>, rest': seq<Response>)
    ensures Phase(outcome, events, rest') == Endpoint(action, service, address, rest)
  {
    var serviceList := [service];
    events := [ControlRequest(address, action, serviceList)];
    if rest == [] {
      outcome, rest' := Unanswered, [];
      return;
    }
    var response := rest[0];
    if response.Fault? {
      events := events + [Print(FaultLine(ControlOperation, response.message))];
      outcome, rest' := Faulted(ControlOperation, response.message), rest[1..];
      return;
    }
    var items := response.items;
    events := events + [Print("Service Status"), Print(Separator())];
    ghost var heading := events;
    for k := 0 to |items|
      invariant events == heading + RowEvents(items[..k])
    {
      assert RowEvents(items[..k + 1]) == RowEvents(items[..k]) + [RowEvent(items[k])];
      events := events + [RowEvent(items[k])];
    }
    assert items[..|items|] == items;
    assert events == [ControlRequest(address, action, serviceList)] + ControlReport(items);
    var polled;
    outcome, polled, rest' := PollUntilStarted(address, serviceList, rest[1..]);
    events := events + polled;
  }

  /** The loop over the lines of the server list, stopping at the first blank one. */
  method Run(action: Action, service: string, lines: seq<string>, responses: seq<Response>)
    returns (outcome: Outcome, events: seq<Event>)
    ensures RunResult(outcome, events) == RunFrom(action, service, lines, responses)
  {
    var rest := responses;
    events := [];
    for i := 0 to |lines|
      invariant RunFrom(action, service, lines, responses) == RunFrom(action, service, lines[i..], rest).After(events)
    {
      ghost var before, step := events, RunFrom(action, service, lines[i..], rest);
      assert lines[i..][0] == lines[i] && lines[i..][1..] == lines[i + 1..];
      var address := Strip(lines[i]);
      if |address| == 0 {
        events := events + [Print(EmptyLineWarning())];
        break;
      }
      var visit := [Visit(address)];
      events := events + visit;
      var result, endpointEvents, rest' := ReconcileEndpoint(action, service, address, rest);
      Concat3(before, visit, endpointEvents);
      events := events + endpointEvents;
      rest := rest';
      if result != Done {
        outcome := result;
        return;
      }
      ghost var tail := RunFrom(action, service, lines[i + 1..], rest);
      assert step == tail.After(visit + endpointEvents);
      Concat3(before, visit + endpointEvents, tail.events);
    }
    outcome := Done;
  }

  /** The script: normalise the action argument, exit on an invalid one, run otherwise. */
  method Execute(arg: Option<string>, service: string, lines: seq<string>, responses: seq<Response>)
    returns (outcome: Outcome, events: seq<Event>)
    ensures RunResult(outcome, events) == Script(arg, service, lines, responses)
  {
    var action := Normalize(arg);
    if action.None? {
      return InvalidAction, [];
    }
    outcome, events := Run(action.value, service, lines, responses);
  }
}
