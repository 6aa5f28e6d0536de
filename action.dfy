/**
 * The action argument of the script: the optional fourth command-line argument
 * is mapped to one of the three control types `Start`, `Stop` and `Restart`.
 * The comparison is exact against three spellings of each word, so the
 * normaliser is not case-insensitive in general.
 */
module ControlAction {
  import opened Maybe

  /** The control types the script sends as `ControlType`. */
  datatype Action = Start | Stop | Restart

  /** The canonical spelling, the one sent to the server. */
  function Name(a: Action): string {
    match a
    case Start => "Start"
    case Stop => "Stop"
    case Restart => "Restart"
  }

  /** The token used when the action argument is absent. */
  const DefaultToken: string := "Restart"

  /** The if/elif chain over an action token; None is the "Invalid Action" exit. */
  function Classify(token: string): Option<Action> {
    if token == "Stop" || token == "stop" || token == "STOP" then Some(Stop)
    else if token == "Start" || token == "start" || token == "START" then Some(Start)
    else if token == "Restart" || token == "restart" || token == "RESTART" then Some(Restart)
    else None
  }

  /** The action argument (None when it is absent) normalised. */
  function Normalize(arg: Option<string>): Option<Action> {
    Classify(if arg.Some? then arg.value else DefaultToken)
  }

  // An independent description of the accepted tokens, by ASCII case mapping.

  function LowerChar(c: char): char {
    if 'A' <= c <= 'Z' then (c as int + 32) as char else c
  }

  function UpperChar(c: char): char {
    if 'a' <= c <= 'z' then (c as int - 32) as char else c
  }

  function Lower(s: string): string {
    seq(|s|, i requires 0 <= i < |s| => LowerChar(s[i]))
  }

  function Upper(s: string): string {
    seq(|s|, i requires 0 <= i < |s| => UpperChar(s[i]))
  }

  /** The spellings of `a` that are accepted: as written, all lower case, all upper case. */
  function Spellings(a: Action): set<string> {
    {Name(a), Lower(Name(a)), Upper(Name(a))}
  }

  /** Every token accepted by the script. */
  function AcceptedTokens(): set<string> {
    Spellings(Start) + Spellings(Stop) + Spellings(Restart)
  }

  lemma SpellingsAre()
    ensures Spellings(Stop) == {"Stop", "stop", "STOP"}
    ensures Spellings(Start) == {"Start", "start", "START"}
    ensures Spellings(Restart) == {"Restart", "restart", "RESTART"}
  {
    assert Lower("Stop") == "stop";
    assert Upper("Stop") == "STOP";
    assert Lower("Start") == "start";
    assert Upper("Start") == "START";
    assert Lower("Restart") == "restart";
    assert Upper("Restart") == "RESTART";
  }

  /** A token is mapped to `a` exactly when it is one of the three spellings of `a`. */
  lemma ClassifyExactly(token: string, a: Action)
    ensures Classify(token) == Some(a) <==> token in Spellings(a)
  {
    SpellingsAre();
  }

  /** Every token outside the nine accepted spellings is rejected, and only those. */
  lemma ClassifyRejects(token: string)
    ensures Classify(token) == None <==> token !in AcceptedTokens()
  {
    SpellingsAre();
  }

  /** There are exactly nine accepted tokens. */
  lemma NineAcceptedTokens()
    ensures |AcceptedTokens()| == 9
  {
    var start, stop, restart := Spellings(Start), Spellings(Stop), Spellings(Restart);
    ThreeSpellings(Start);
    ThreeSpellings(Stop);
    ThreeSpellings(Restart);
    // The three words have different lengths, so no spelling belongs to two of them.
    SpellingLengths(Start);
    SpellingLengths(Stop);
    SpellingLengths(Restart);
    assert start * stop == {};
    assert |start + stop| == 6;
    assert (start + stop) * restart == {};
  }

  lemma ThreeSpellings(a: Action)
    ensures |Spellings(a)| == 3
  {
    SpellingsAre();
    match a
    case Start =>
      assert "Start"[0] != "start"[0] && "Start"[1] != "START"[1] && "start"[0] != "START"[0];
    case Stop =>
      assert "Stop"[0] != "stop"[0] && "Stop"[1] != "STOP"[1] && "stop"[0] != "STOP"[0];
    case Restart =>
      assert "Restart"[0] != "restart"[0] && "Restart"[1] != "RESTART"[1] && "restart"[0] != "RESTART"[0];
  }

  lemma SpellingLengths(a: Action)
    ensures forall t :: t in Spellings(a) ==> |t| == |Name(a)|
  {
  }

  /** The canonical spelling is accepted and maps back to its action. */
  lemma NameRoundTrip(a: Action)
    ensures Classify(Name(a)) == Some(a)
    ensures Normalize(Some(Name(a))) == Some(a)
  {
  }

  /** An absent argument means Restart. */
  lemma AbsentMeansRestart()
    ensures Normalize(None) == Some(Restart)
  {
  }

  /** Mixed case is rejected although it agrees with "Stop" up to letter case. */
  lemma MixedCaseRejected()
    ensures Lower("sTOP") == Lower("Stop")
    ensures Classify("sTOP") == None
  {
    assert Lower("sTOP") == "stop";
    assert Lower("Stop") == "stop";
  }
}
