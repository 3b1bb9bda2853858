/**
 * The two activity logs of the lesson-04 page (input rules and paste rules):
 * `pasteEvents`, appended by the paste handler, and `ruleActivity`, appended
 * by the transaction listener and by the "test custom input rules" button.
 * The handlers append with `[...prev.slice(-4), entry]`, which keeps the
 * five newest entries; the button appends without dropping anything.
 */
module ActivityLog {
  import opened Wrappers

  const PASTE_PREFIX: string := "Paste: "
  const RULE_PREFIX: string := "Input rule triggered: "
  const ELLIPSIS: string := "..."
  /** How many characters of the pasted text the log shows. */
  const PREVIEW_LENGTH: nat := 50
  /** How many entries a bounded append keeps: the last four old ones plus the new one. */
  const LOG_CAPACITY: nat := 5
  /** The entry the test button appends. */
  const SIMULATED_ENTRY: string := "Simulated heading input rule"

  /** `s.slice(0, n)` for `n >= 0`: the first `n` elements, or all of them (for a string, `n` characters, each a Unicode scalar value). */
  function Take<T>(s: seq<T>, n: nat): (r: seq<T>)
    ensures |r| == Min(n, |s|) && r == s[..|r|]
  {
    if n <= |s| then s[..n] else s
  }

  /** `s.slice(-n)` for `n > 0`: the last `n` elements, or all of them. */
  function TakeLast<T>(s: seq<T>, n: nat): (r: seq<T>)
    requires n > 0
    ensures |r| == Min(n, |s|) && r == s[|s| - |r|..]
  {
    if n <= |s| then s[|s| - n..] else s
  }

  /**
   * The paste log entry: `Paste: ${text.slice(0, 50)}${text.length > 50 ? '...' : ''}`.
   * Lengths and the cut are counted in Unicode scalar values (Dafny characters),
   * where JavaScript counts UTF-16 code units.
   */
  function PasteLogEntry(text: string): (r: string)
    ensures |r| == |PASTE_PREFIX| + Min(|text|, PREVIEW_LENGTH) + (if |text| > PREVIEW_LENGTH then |ELLIPSIS| else 0)
    ensures r[..|PASTE_PREFIX|] == PASTE_PREFIX
    ensures |text| <= PREVIEW_LENGTH ==> r[|PASTE_PREFIX|..] == text
    ensures |text| > PREVIEW_LENGTH ==>
              r[|PASTE_PREFIX|..|PASTE_PREFIX| + PREVIEW_LENGTH] == text[..PREVIEW_LENGTH] &&
              r[|PASTE_PREFIX| + PREVIEW_LENGTH..] == ELLIPSIS
  {
    PASTE_PREFIX + Take(text, PREVIEW_LENGTH) + (if |text| > PREVIEW_LENGTH then ELLIPSIS else "")
  }

  /** The entry text after the prefix, when it carries one. */
  function PreviewOf(entry: string): Option<string>
  {
    if |entry| >= |PASTE_PREFIX| && entry[..|PASTE_PREFIX|] == PASTE_PREFIX then Some(entry[|PASTE_PREFIX|..]) else None
  }

  /** A paste of at most 50 characters is logged verbatim, so the entry gives the text back. */
  lemma ShortPasteRoundTrip(text: string)
    requires |text| <= PREVIEW_LENGTH
    ensures PreviewOf(PasteLogEntry(text)) == Some(text)
  {
  }

  /** Pastes that agree on their first 50 characters and are both longer than that give the same entry. */
  lemma LongPastesShareEntry(t1: string, t2: string)
    requires |t1| > PREVIEW_LENGTH && |t2| > PREVIEW_LENGTH && t1[..PREVIEW_LENGTH] == t2[..PREVIEW_LENGTH]
    ensures PasteLogEntry(t1) == PasteLogEntry(t2)
  {
  }

  /** The transaction listener's entry: `Input rule triggered: ${JSON.stringify(ruleInfo)}`, the JSON text taken as given. */
  function RuleLogEntry(ruleJson: string): (r: string)
    ensures |r| == |RULE_PREFIX| + |ruleJson|
    ensures r[..|RULE_PREFIX|] == RULE_PREFIX && r[|RULE_PREFIX|..] == ruleJson
  {
    RULE_PREFIX + ruleJson
  }

  /** `[...prev.slice(-4), entry]`. */
  function AppendBounded(prev: seq<string>, entry: string): (r: seq<string>)
    ensures 1 <= |r| <= LOG_CAPACITY && r[|r| - 1] == entry
    ensures |r| - 1 == Min(|prev|, LOG_CAPACITY - 1)
    ensures r[..|r| - 1] == prev[|prev| - (|r| - 1)..]
  {
    TakeLast(prev, LOG_CAPACITY - 1) + [entry]
  }

  /** A bounded append is the append followed by keeping the five newest entries. */
  lemma AppendBoundedKeepsNewest(prev: seq<string>, entry: string)
    ensures AppendBounded(prev, entry) == TakeLast(prev + [entry], LOG_CAPACITY)
  {
    var r := AppendBounded(prev, entry);
    var all := prev + [entry];
    assert all[|all| - |r|..] == r;
  }

  /** Below capacity nothing is dropped. */
  lemma AppendBoundedBelowCapacity(prev: seq<string>, entry: string)
    requires |prev| < LOG_CAPACITY
    ensures AppendBounded(prev, entry) == prev + [entry]
  {
  }

  /** Several bounded appends in a row. */
  function AppendAllBounded(prev: seq<string>, entries: seq<string>): seq<string>
    decreases |entries|
  {
    if entries == [] then prev
    else AppendAllBounded(AppendBounded(prev, entries[0]), entries[1..])
  }

  /** However many bounded appends run, the log holds the five newest of all entries ever written. */
  lemma {:induction false} AppendAllKeepsNewest(prev: seq<string>, entries: seq<string>)
    requires entries != []
    ensures AppendAllBounded(prev, entries) == TakeLast(prev + entries, LOG_CAPACITY)
    decreases |entries|
  {
    var first := prev + [entries[0]];
    var next := AppendBounded(prev, entries[0]);
    AppendBoundedKeepsNewest(prev, entries[0]);
    SplitFirst(prev, entries);
    if |entries| == 1 {
      assert entries[1..] == [];
      assert first + entries[1..] == first;
    } else {
      AppendAllKeepsNewest(next, entries[1..]);
      TakeLastOfTakeLast(first, entries[1..], LOG_CAPACITY);
    }
  }

  /** Moving the first of the appended entries onto the old log. */
  lemma SplitFirst<T>(prev: seq<T>, entries: seq<T>)
    requires entries != []
    ensures prev + entries == (prev + [entries[0]]) + entries[1..]
  {
    assert entries == [entries[0]] + entries[1..];
  }

  /** Trimming before appending more does not change the newest `n`. */
  lemma TakeLastOfTakeLast<T>(a: seq<T>, b: seq<T>, n: nat)
    requires n > 0
    ensures TakeLast(TakeLast(a, n) + b, n) == TakeLast(a + b, n)
  {
    if n < |a| {
      var k := |a| - n;
      assert TakeLast(a, n) + b == (a + b)[k..];
      assert (a + b)[k..][|(a + b)[k..]| - Min(n, |(a + b)[k..]|)..] == (a + b)[|a + b| - Min(n, |a + b|)..];
    }
  }

  /** `event.clipboardData?.getData('text/plain') || ''`: the pasted plain text, empty when there is none. */
  function PastedText(clipboardText: Option<string>): (r: string)
    ensures r == "" <==> clipboardText.None? || clipboardText.value == ""
    ensures r != "" ==> clipboardText == Some(r)
  {
    match clipboardText
    case Some(t) => t
    case None => ""
  }

  /** The page events that change the logs. `Transaction` carries the `inputRule` metadata, if any, as JSON text. */
  datatype PageEvent =
    | Paste(clipboardText: Option<string>)
    | Transaction(inputRule: Option<string>)
    | TestInputRules(editorReady: bool)
    | Clear(editorReady: bool)

  /** Both logs as values. */
  datatype Logs = Logs(ruleActivity: seq<string>, pasteEvents: seq<string>)

  /** What one event does to the logs. */
  function Apply(logs: Logs, e: PageEvent): (r: Logs)
    ensures e.Paste? ==> r.ruleActivity == logs.ruleActivity &&
                          r.pasteEvents == AppendBounded(logs.pasteEvents, PasteLogEntry(PastedText(e.clipboardText)))
    ensures e.Transaction? ==> r.pasteEvents == logs.pasteEvents &&
                                r.ruleActivity == (if e.inputRule.Some? then AppendBounded(logs.ruleActivity, RuleLogEntry(e.inputRule.value))
                                                   else logs.ruleActivity)
    ensures e.TestInputRules? ==> r.pasteEvents == logs.pasteEvents &&
                                   r.ruleActivity == logs.ruleActivity + (if e.editorReady then [SIMULATED_ENTRY] else [])
    ensures e.Clear? ==> r == (if e.editorReady then Logs([], []) else logs)
  {
    match e
    case Paste(clip) =>
      logs.(pasteEvents := AppendBounded(logs.pasteEvents, PasteLogEntry(PastedText(clip))))
    case Transaction(rule) =>
      if rule.Some? then logs.(ruleActivity := AppendBounded(logs.ruleActivity, RuleLogEntry(rule.value))) else logs
    case TestInputRules(ready) =>
      if ready then logs.(ruleActivity := logs.ruleActivity + [SIMULATED_ENTRY]) else logs
    case Clear(ready) =>
      if ready then Logs([], []) else logs
  }

  /** A run of events applied in order. */
  function ApplyAll(logs: Logs, events: seq<PageEvent>): Logs
    decreases |events|
  {
    if events == [] then logs else ApplyAll(Apply(logs, events[0]), events[1..])
  }

  /** The paste log never holds more than five entries, whatever happens on the page. */
  lemma {:induction false} PasteLogStaysBounded(logs: Logs, events: seq<PageEvent>)
    requires |logs.pasteEvents| <= LOG_CAPACITY
    ensures |ApplyAll(logs, events).pasteEvents| <= LOG_CAPACITY
    decreases |events|
  {
    if events != [] {
      PasteLogStaysBounded(Apply(logs, events[0]), events[1..]);
    }
  }

  /** Without the test button, the rule log never holds more than five entries either. */
  lemma {:induction false} RuleLogBoundedWithoutTestButton(logs: Logs, events: seq<PageEvent>)
    requires |logs.ruleActivity| <= LOG_CAPACITY
    requires forall i | 0 <= i < |events| :: !(events[i].TestInputRules? && events[i].editorReady)
    ensures |ApplyAll(logs, events).ruleActivity| <= LOG_CAPACITY
    decreases |events|
  {
    if events != [] {
      RuleLogBoundedWithoutTestButton(Apply(logs, events[0]), events[1..]);
    }
  }

  /**
   * With the test button the rule log has no bound: five input-rule
   * transactions followed by the button leave six entries.
   */
  lemma RuleLogCanExceedCapacity(json: string)
    ensures |ApplyAll(Logs([], []), [Transaction(Some(json)), Transaction(Some(json)), Transaction(Some(json)),
                                     Transaction(Some(json)), Transaction(Some(json)), TestInputRules(true)]).ruleActivity| == 6
  {
    var ev := [Transaction(Some(json)), Transaction(Some(json)), Transaction(Some(json)),
               Transaction(Some(json)), Transaction(Some(json)), TestInputRules(true)];
    var l1 := Apply(Logs([], []), ev[0]);
    var l2 := Apply(l1, ev[1]);
    var l3 := Apply(l2, ev[2]);
    var l4 := Apply(l3, ev[3]);
    var l5 := Apply(l4, ev[4]);
    var l6 := Apply(l5, ev[5]);
    assert |l5.ruleActivity| == 5 && |l6.ruleActivity| == 6;
    assert ApplyAll(l6, ev[6..]) == l6;
    assert ApplyAll(l5, ev[5..]) == ApplyAll(l6, ev[6..]);
    assert ApplyAll(l4, ev[4..]) == ApplyAll(l5, ev[5..]);
    assert ApplyAll(l3, ev[3..]) == ApplyAll(l4, ev[4..]);
    assert ApplyAll(l2, ev[2..]) == ApplyAll(l3, ev[3..]);
    assert ApplyAll(l1, ev[1..]) == ApplyAll(l2, ev[2..]);
    assert ApplyAll(Logs([], []), ev) == ApplyAll(l1, ev[1..]);
  }

  /** The lesson-04 page's two logs and the handlers that change them. */
  class InputRulesPage {
    var ruleActivity: seq<string>
    var pasteEvents: seq<string>

    ghost function Current(): Logs
      reads this
    {
      Logs(ruleActivity, pasteEvents)
    }

    /** `useState<string[]>([])` for both logs. */
    constructor ()
      ensures ruleActivity == [] && pasteEvents == []
    {
      ruleActivity := [];
      pasteEvents := [];
    }

    /** `handlePaste`: log the pasted plain text and answer false, so the default paste runs. */
    method HandlePaste(clipboardText: Option<string>) returns (handled: bool)
      modifies this`pasteEvents
      ensures !handled
      ensures Current() == Apply(old(Current()), Paste(clipboardText))
    {
      var pastedText := PastedText(clipboardText);
      var logEntry := PasteLogEntry(pastedText);
      pasteEvents := AppendBounded(pasteEvents, logEntry);
      return false;
    }

    /** `onTransaction`: log the transaction when it carries `inputRule` metadata. */
    method OnTransaction(inputRule: Option<string>)
      modifies this`ruleActivity
      ensures Current() == Apply(old(Current()), Transaction(inputRule))
    {
      if inputRule.Some? {
        var logEntry := RuleLogEntry(inputRule.value);
        ruleActivity := AppendBounded(ruleActivity, logEntry);
      }
    }

    /** `testCustomInputRules`: with an editor, insert "# " (not modelled) and log without trimming. */
    method TestCustomInputRules(editorReady: bool)
      modifies this`ruleActivity
      ensures Current() == Apply(old(Current()), TestInputRules(editorReady))
      ensures editorReady ==> |ruleActivity| == |old(ruleActivity)| + 1
    {
      if !editorReady {
        return;
      }
      ruleActivity := ruleActivity + [SIMULATED_ENTRY];
    }

    /** `clearEditor`: with an editor, clear its content (not modelled) and empty both logs. */
    method ClearEditor(editorReady: bool)
      modifies this
      ensures Current() == Apply(old(Current()), Clear(editorReady))
    {
      if !editorReady {
        return;
      }
      ruleActivity := [];
      pasteEvents := [];
    }
  }
}
