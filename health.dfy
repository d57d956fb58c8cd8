/**
 * The footer health indicator: a status string that starts as "checking" and
 * is overwritten by every completed probe of the health endpoint, a time stamp
 * of the last completed probe, and the pure display mappings of the status.
 */
module Health {
  import opened Optional
  import opened Http
  import Text

  const Checking: string := "checking"
  const Healthy: string := "healthy"
  const Down: string := "down"

  predicate IsKnown(status: string) {
    status == Checking || status == Healthy || status == Down
  }

  const Gray: string := "#9E9E9E"

  /** Background colour of the status dot, with a grey default for any other string. */
  function StatusColor(status: string): (c: string)
    ensures c == Gray <==> !IsKnown(status)
  {
    if status == Healthy then "#4CAF50"
    else if status == Down then "#F44336"
    else if status == Checking then "#FF9800"
    else Gray
  }

  /** Label beside the dot, with "Unknown" for any other string. */
  function StatusText(status: string): (t: string)
    ensures t == "Unknown" <==> !IsKnown(status)
  {
    if status == Healthy then "API Healthy"
    else if status == Down then "API Down"
    else if status == Checking then "Checking..."
    else "Unknown"
  }

  /** The dot pulses while the status is "checking". */
  predicate Pulses(status: string) {
    status == Checking
  }

  /** Colour and label each tell the three statuses apart. */
  lemma DisplayDistinguishesStatuses(a: string, b: string)
    requires IsKnown(a) && IsKnown(b)
    ensures StatusColor(a) == StatusColor(b) ==> a == b
    ensures StatusText(a) == StatusText(b) ==> a == b
  {
  }

  /** A failed probe is logged unless it was the timeout's abort or a browser network failure. */
  predicate ShouldWarn(name: string, message: string) {
    name != "AbortError" && !Text.Includes(message, "Failed to fetch")
  }

  /** The warning test in terms of occurrences: no position of the message starts "Failed to fetch". */
  lemma {:induction false} ShouldWarnIff(name: string, message: string)
    ensures ShouldWarn(name, message) <==>
            name != "AbortError" && forall i :: !Text.OccursAt(message, "Failed to fetch", i)
  {
    Text.IncludesIff(message, "Failed to fetch");
  }

  /** A network failure, whatever text surrounds "Failed to fetch" in its message, is never logged. */
  lemma {:induction false} NetworkFailureIsQuiet(name: string, before: string, after: string)
    ensures !ShouldWarn(name, before + "Failed to fetch" + after)
  {
    var m := before + "Failed to fetch" + after;
    assert m[|before|..|before| + |"Failed to fetch"|] == "Failed to fetch";
    assert Text.OccursAt(m, "Failed to fetch", |before|);
    Text.IncludesIff(m, "Failed to fetch");
  }

  /** The status a completed probe writes. */
  function ProbeStatus(outcome: Outcome): (s: string)
    ensures IsKnown(s) && s != Checking
    ensures s == Healthy <==> outcome.Ok?
  {
    if outcome.Ok? then Healthy else Down
  }

  /** A time stamp, taken by the caller when the probe completes. */
  type Instant = int

  class HealthMonitor {
    var status: string
    var lastChecked: Option<Instant>
    /** The completed probes, oldest first. */
    ghost var probes: seq<Outcome>

    /** The status is the initial "checking" until a probe completes, then the last probe's verdict. */
    ghost predicate Valid()
      reads this
    {
      IsKnown(status) &&
      (probes == [] <==> lastChecked == None) &&
      status == (if probes == [] then Checking else ProbeStatus(probes[|probes| - 1]))
    }

    constructor ()
      ensures Valid()
      ensures status == Checking && lastChecked == None && probes == []
    {
      status := Checking;
      lastChecked := None;
      probes := [];
    }

    /**
     * One run of the health check after `fetch` settled with `outcome` at time
     * `now`. The status is not set to "checking" first; `warned` reports whether
     * the failure is written to the console.
     */
    method Probe(outcome: Outcome, now: Instant) returns (warned: bool)
      requires Valid()
      modifies this
      ensures Valid()
      ensures probes == old(probes) + [outcome]
      ensures status == (if outcome.Ok? then Healthy else Down)
      ensures lastChecked == Some(now)
      ensures warned <==> outcome.Thrown? && ShouldWarn(outcome.name, outcome.message)
    {
      warned := false;
      match outcome {
        case Ok(_) =>
          status := Healthy;
        case NotOk(_, _, _) =>
          status := Down;
        case Thrown(name, message) =>
          if ShouldWarn(name, message) {
            warned := true;
          }
          status := Down;
      }
      lastChecked := Some(now);
      probes := probes + [outcome];
    }
  }

  /** A valid monitor never shows the grey colour or the "Unknown" label. */
  lemma ReachableStatusDisplay(m: HealthMonitor)
    requires m.Valid()
    ensures StatusColor(m.status) != Gray && StatusText(m.status) != "Unknown"
  {
  }

  /** The dot pulses exactly until the first probe completes: no probe writes "checking". */
  lemma PulsesUntilFirstProbe(m: HealthMonitor)
    requires m.Valid()
    ensures Pulses(m.status) <==> m.lastChecked == None
    ensures m.lastChecked != None ==> StatusColor(m.status) != StatusColor(Checking)
  {
  }
}
