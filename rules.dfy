/**
  Monitor rules: one entry of the configured `monitors` list and the form it
  takes once `reloadConfig` has prepared it (lib/engine.js, reloadConfig).

  Byte and second quantities are taken already parsed to integers. JavaScript
  falsy values are written out: an empty `signal` stands for "not configured",
  a `snoozeTime` of 0 for "no snooze". A `maxMem` of None stands for a limit
  that is absent or not a number: every comparison with it is false, so the
  offender filter then applies no memory threshold.
*/
module Rules {
  import opened Wrappers

  /** A monitor entry as it appears in the configuration. */
  datatype MonitorConfig = MonitorConfig(
    enabled: bool,
    maxMem: Option<int>,
    nameMatches: Option<seq<string>>,
    nameExcludes: Option<seq<string>>,
    pathMatches: Option<seq<string>>,
    pathExcludes: Option<seq<string>>,
    signal: string,
    prompt: bool,
    snoozeTime: int,
    notify: bool,
    clickAction: string,
    timeoutAction: string)

  /** A monitor after compilation: each present pattern list has become one pattern text. */
  datatype Monitor = Monitor(
    enabled: bool,
    maxMem: Option<int>,
    nameMatches: Option<string>,
    nameExcludes: Option<string>,
    pathMatches: Option<string>,
    pathExcludes: Option<string>,
    signal: string,
    prompt: bool,
    snoozeTime: int,
    notify: bool,
    clickAction: string,
    timeoutAction: string)

  const DefaultSignal: string := "SIGTERM"

  /** JavaScript's `Array.prototype.join`. */
  function Join(parts: seq<string>, sep: string): string
    decreases |parts|
  {
    if |parts| == 0 then ""
    else if |parts| == 1 then parts[0]
    else parts[0] + sep + Join(parts[1..], sep)
  }

  /** The source text `'(' + list.join(')|(') + ')'` of a compiled pattern list. */
  function Alternation(alternatives: seq<string>): string
  {
    "(" + Join(alternatives, ")|(") + ")"
  }

  /** One alternative wrapped as a capturing group. */
  function Group(alternative: string): string
  {
    "(" + alternative + ")"
  }

  function Groups(alternatives: seq<string>): (r: seq<string>)
    ensures |r| == |alternatives|
    ensures forall i :: 0 <= i < |r| ==> r[i] == Group(alternatives[i])
  {
    seq(|alternatives|, i requires 0 <= i < |alternatives| => Group(alternatives[i]))
  }

  /**
    The text of the compiled pattern of a non-empty list is `(a1)|(a2)|…|(an)`:
    every listed alternative becomes its own group and the groups are joined by
    the alternation operator.
  */
  lemma {:induction false} AlternationIsUnionOfGroups(alternatives: seq<string>)
    requires |alternatives| > 0
    ensures Alternation(alternatives) == Join(Groups(alternatives), "|")
    decreases |alternatives|
  {
    var a := alternatives;
    if |a| > 1 {
      var rest := a[1..];
      AlternationIsUnionOfGroups(rest);
      assert Groups(a)[1..] == Groups(rest);
      calc {
        Join(Groups(a), "|");
        Group(a[0]) + "|" + Join(Groups(rest), "|");
        Group(a[0]) + "|" + Alternation(rest);
        ("(" + a[0] + ")") + "|" + ("(" + Join(rest, ")|(") + ")");
        { assert ("(" + a[0] + ")") + "|" + ("(" + Join(rest, ")|(") + ")")
              == "(" + (a[0] + ")|(" + Join(rest, ")|(")) + ")"; }
        "(" + (a[0] + ")|(" + Join(rest, ")|(")) + ")";
        Alternation(a);
      }
    }
  }

  /** An absent list stays absent; a present one becomes its alternation. */
  function CompilePattern(list: Option<seq<string>>): Option<string>
  {
    match list
    case None => None
    case Some(alternatives) => Some(Alternation(alternatives))
  }

  /** What `reloadConfig` does to one monitor entry. */
  function Compile(c: MonitorConfig): (m: Monitor)
    ensures m.signal != ""
    ensures m.signal == (if c.signal == "" then DefaultSignal else c.signal)
    ensures c.nameMatches.None? ==> m.nameMatches.None?
    ensures c.nameExcludes.None? ==> m.nameExcludes.None?
    ensures c.pathMatches.None? ==> m.pathMatches.None?
    ensures c.pathExcludes.None? ==> m.pathExcludes.None?
    ensures c.nameMatches.Some? ==> m.nameMatches == Some(Alternation(c.nameMatches.value))
    ensures c.nameExcludes.Some? ==> m.nameExcludes == Some(Alternation(c.nameExcludes.value))
    ensures c.pathMatches.Some? ==> m.pathMatches == Some(Alternation(c.pathMatches.value))
    ensures c.pathExcludes.Some? ==> m.pathExcludes == Some(Alternation(c.pathExcludes.value))
    ensures m.enabled == c.enabled && m.maxMem == c.maxMem && m.prompt == c.prompt
    ensures m.snoozeTime == c.snoozeTime && m.notify == c.notify
    ensures m.clickAction == c.clickAction && m.timeoutAction == c.timeoutAction
  {
    Monitor(
      c.enabled,
      c.maxMem,
      CompilePattern(c.nameMatches),
      CompilePattern(c.nameExcludes),
      CompilePattern(c.pathMatches),
      CompilePattern(c.pathExcludes),
      if c.signal == "" then DefaultSignal else c.signal,
      c.prompt,
      c.snoozeTime,
      c.notify,
      c.clickAction,
      c.timeoutAction)
  }

}
