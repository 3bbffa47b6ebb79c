/**
 * ETW log events and the rules that select them: an event yields one match
 * per rule whose provider, task and opcode all equal the event's and whose
 * field list is not empty, carrying the event data projected on the rule's
 * fields.
 */
module EtwEvents {
  import opened PyValues

  /** The `rule` entry of a rule file. */
  datatype Rule = Rule(name: PyValue, provider: PyValue, task: PyValue, opcode: PyValue, fields: seq<string>)

  /** One line of a JSONL log: its top-level keys and its `Data` object (empty when absent). */
  datatype Event = Event(top: map<string, PyValue>, data: map<string, PyValue>)

  datatype Match = Match(
    ruleName: PyValue,
    provider: PyValue,
    task: PyValue,
    opcode: PyValue,
    fields: map<string, PyValue>,
    processId: PyValue,
    threadId: PyValue,
    processName: PyValue,
    keyword: PyValue)

  function ProviderName(e: Event): PyValue { Get(e.top, "ProviderName") }
  function TaskName(e: Event): PyValue { Get(e.top, "TaskName") }
  function OpcodeName(e: Event): PyValue { Get(e.top, "OpcodeName") }

  /** The rule names the event's provider, task and opcode. */
  predicate Selects(rule: Rule, e: Event) {
    rule.provider == ProviderName(e) && rule.task == TaskName(e) && rule.opcode == OpcodeName(e)
  }

  /** `{field: data.get(field) for field in rule["fields"]}`. */
  function Project(data: map<string, PyValue>, names: seq<string>): map<string, PyValue> {
    map n | n in names :: Get(data, n)
  }

  /** The projection has exactly the rule's fields as keys, None for those the data lacks; it is empty only for an empty field list. */
  lemma ProjectFields(data: map<string, PyValue>, names: seq<string>)
    ensures Project(data, names).Keys == set n | n in names
    ensures forall n | n in names :: Project(data, names)[n] == (if n in data then data[n] else PyNone)
    ensures Project(data, names) == map[] <==> names == []
  {
    if names != [] {
      assert names[0] in Project(data, names);
    }
  }

  /** The match a rule makes of an event. */
  function MatchOf(rule: Rule, e: Event): Match {
    Match(rule.name, ProviderName(e), TaskName(e), OpcodeName(e), Project(e.data, rule.fields),
          GetOr(e.top, "ProcessId", PyInt(0)), GetOr(e.top, "ThreadId", PyInt(0)),
          Get(e.top, "ProcessName"), Get(e.top, "Keyword"))
  }

  /** Whether a rule yields a match for the event. */
  predicate Fires(rule: Rule, e: Event) {
    Selects(rule, e) && Project(e.data, rule.fields) != map[]
  }

  /** The matches of one event, in rule order. */
  function EventMatches(rules: seq<Rule>, e: Event): seq<Match> {
    if rules == [] then []
    else (if Fires(rules[0], e) then [MatchOf(rules[0], e)] else []) + EventMatches(rules[1..], e)
  }

  /** The matches of a sequence of events, event by event. */
  function AllMatches(rules: seq<Rule>, events: seq<Event>): seq<Match> {
    if events == [] then [] else EventMatches(rules, events[0]) + AllMatches(rules, events[1..])
  }

  /**
   * The matches of an event are those of the rules that select it and have a
   * non-empty field list, one per rule: a match is the rule's name, the
   * event's identity and the projected data.
   */
  lemma {:induction false} EventMatchesSpec(rules: seq<Rule>, e: Event)
    ensures |EventMatches(rules, e)| <= |rules|
    ensures forall m :: m in EventMatches(rules, e) <==>
      exists r | r in rules :: Selects(r, e) && r.fields != [] && m == MatchOf(r, e)
    ensures forall m | m in EventMatches(rules, e) :: m.fields != map[]
  {
    if rules != [] {
      EventMatchesSpec(rules[1..], e);
      ProjectFields(e.data, rules[0].fields);
      assert forall r | r in rules :: r == rules[0] || r in rules[1..];
      forall m | m in EventMatches(rules, e)
        ensures m.fields != map[]
      {
        if m !in EventMatches(rules[1..], e) {
          assert m == MatchOf(rules[0], e);
        }
      }
      forall r | r in rules && Selects(r, e) && r.fields != []
        ensures MatchOf(r, e) in EventMatches(rules, e)
      {
        ProjectFields(e.data, r.fields);
      }
    }
  }

  /** Matching the events of two logs in turn gives the matches of both, in order. */
  lemma {:induction false} AllMatchesAppend(rules: seq<Rule>, xs: seq<Event>, ys: seq<Event>)
    ensures AllMatches(rules, xs + ys) == AllMatches(rules, xs) + AllMatches(rules, ys)
  {
    if xs != [] {
      assert (xs + ys)[1..] == xs[1..] + ys;
      AllMatchesAppend(rules, xs[1..], ys);
    } else {
      assert xs + ys == ys;
    }
  }

  lemma EventMatchesStep(rules: seq<Rule>, j: nat, d: Event)
    requires j < |rules|
    ensures EventMatches(rules[j..], d) == (if Fires(rules[j], d) then [MatchOf(rules[j], d)] else []) + EventMatches(rules[j + 1..], d)
  {
    assert rules[j..][1..] == rules[j + 1..];
  }

  /** Tries every rule on one event. */
  method MatchEvent(rules: seq<Rule>, d: Event) returns (found: seq<Match>)
    ensures found == EventMatches(rules, d)
  {
    var providerName := ProviderName(d);
    var taskName := TaskName(d);
    var opcodeName := OpcodeName(d);
    found := [];
    var j := 0;
    while j < |rules|
      invariant 0 <= j <= |rules|
      invariant found + EventMatches(rules[j..], d) == EventMatches(rules, d)
    {
      var rule := rules[j];
      EventMatchesStep(rules, j, d);
      if rule.provider == providerName && rule.task == taskName && rule.opcode == opcodeName {
        var fields := Project(d.data, rule.fields);
        if fields != map[] {
          assert found + ([MatchOf(rule, d)] + EventMatches(rules[j + 1..], d))
            == (found + [MatchOf(rule, d)]) + EventMatches(rules[j + 1..], d);
          found := found + [MatchOf(rule, d)];
        } else {
          assert [] + EventMatches(rules[j + 1..], d) == EventMatches(rules[j + 1..], d);
        }
      } else {
        assert [] + EventMatches(rules[j + 1..], d) == EventMatches(rules[j + 1..], d);
      }
      j := j + 1;
    }
    assert rules[j..] == [];
  }

  /** The provider names of the events. */
  function Providers(events: seq<Event>): set<PyValue> {
    set e | e in events :: ProviderName(e)
  }

  /** The task names of the events. */
  function TaskNames(events: seq<Event>): set<PyValue> {
    set e | e in events :: TaskName(e)
  }

  lemma NamesSnoc(events: seq<Event>, i: nat)
    requires i < |events|
    ensures Providers(events[..i + 1]) == Providers(events[..i]) + {ProviderName(events[i])}
    ensures TaskNames(events[..i + 1]) == TaskNames(events[..i]) + {TaskName(events[i])}
  {
    assert events[..i + 1] == events[..i] + [events[i]];
    assert forall e :: e in events[..i + 1] <==> e in events[..i] || e == events[i];
  }

  /**
   * The matching loop of the log processing: every event line is counted,
   * its provider and task names collected, and every rule tried on it.
   */
  method MatchEvents(rules: seq<Rule>, events: seq<Event>)
    returns (matches: seq<Match>, eventCount: nat, providers: set<PyValue>, taskNames: set<PyValue>)
    ensures matches == AllMatches(rules, events)
    ensures eventCount == |events|
    ensures providers == Providers(events)
    ensures taskNames == TaskNames(events)
  {
    matches, eventCount, providers, taskNames := [], 0, {}, {};
    var i := 0;
    while i < |events|
      invariant 0 <= i <= |events|
      invariant matches == AllMatches(rules, events[..i])
      invariant eventCount == i
      invariant providers == Providers(events[..i])
      invariant taskNames == TaskNames(events[..i])
    {
      var d := events[i];
      var providerName := ProviderName(d);
      var taskName := TaskName(d);
      NamesSnoc(events, i);
      providers := providers + {providerName};
      taskNames := taskNames + {taskName};
      eventCount := eventCount + 1;
      var found := MatchEvent(rules, d);
      AllMatchesAppend(rules, events[..i], [d]);
      assert AllMatches(rules, [d]) == EventMatches(rules, d) by {
        assert [d][1..] == [];
      }
      assert events[..i + 1] == events[..i] + [d];
      matches := matches + found;
      i := i + 1;
    }
    assert events[..i] == events;
  }
}
