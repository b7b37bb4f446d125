/** The on-page event log of `logEvent`: each new message is prepended, and
    when the log then holds more than 15 entries its last (oldest) entry is
    removed. The formatted message is an input; its timestamp and the console
    output are not modelled. */
module EventLogging {

  const Capacity: nat := 15

  /** The log after one message, newest first. */
  function Logged(log: seq<string>, message: string): (r: seq<string>)
    ensures |r| > 0 && r[0] == message
    ensures |r| == if |log| < Capacity then |log| + 1 else |log|
    ensures r == [message] + log[..|r| - 1]
  {
    var grown := [message] + log;
    if |grown| > Capacity then grown[..|grown| - 1] else grown
  }

  /** The log after the messages, logged left to right. */
  function LoggedAll(log: seq<string>, messages: seq<string>): (r: seq<string>)
    ensures messages == [] ==> r == log
    ensures messages != [] ==> r != [] && r[0] == messages[|messages| - 1]
    ensures |log| <= Capacity ==> |r| <= Capacity
    decreases |messages|
  {
    if messages == [] then log else LoggedAll(Logged(log, messages[0]), messages[1..])
  }

  function Reverse(s: seq<string>): (r: seq<string>)
    ensures |r| == |s|
  {
    if s == [] then [] else Reverse(s[1..]) + [s[0]]
  }

  lemma HistoryStep(recent: seq<string>, m: string, log: seq<string>, next: seq<string>, n: nat)
    requires 1 <= |next| <= |log| + 1 && next == [m] + log[..|next| - 1]
    requires n <= |recent| + |next|
    ensures (recent + next)[..n] == (recent + [m] + log)[..n]
  {
  }

  /** A log that fits its capacity keeps fitting it, and holds the most recent
      messages newest first, followed by the entries it held before, cut to 15. */
  lemma {:induction false} LogHistory(log: seq<string>, messages: seq<string>)
    requires |log| <= Capacity
    ensures var total := |messages| + |log|;
      LoggedAll(log, messages) == (Reverse(messages) + log)[..if total < Capacity then total else Capacity]
    decreases |messages|
  {
    if messages != [] {
      var m, ms := messages[0], messages[1..];
      var next := Logged(log, m);
      LogHistory(next, ms);
      var total := |messages| + |log|;
      HistoryStep(Reverse(ms), m, log, next, if total < Capacity then total else Capacity);
      assert Reverse(messages) == Reverse(ms) + [m];
    }
  }

  /** The `#event-log` container. */
  class EventLog {
    var entries: seq<string>

    ghost predicate Valid()
      reads this
    {
      |entries| <= Capacity
    }

    constructor ()
      ensures Valid() && entries == []
    {
      entries := [];
    }

    /** `eventLog.prepend(logEntry)`, then `removeChild(lastChild)` when more than 15 remain. */
    method Log(message: string)
      modifies this
      ensures entries == Logged(old(entries), message)
      ensures old(Valid()) ==> Valid()
    {
      entries := [message] + entries;
      if |entries| > Capacity {
        entries := entries[..|entries| - 1];
      }
    }
  }
}
