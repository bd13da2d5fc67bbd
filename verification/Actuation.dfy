/** From votes to actions: the metrics of a run of the tally, routed to profiles, drive the rules. */
module Actuation {
  import opened Config
  import opened Int32
  import opened ResultProcessing
  import opened Tally
  import opened TallyRefinement
  import opened Wrappers

  /** The routing of Program: an event goes to the profile its operation was configured for, if any. */
  function Routed(profiles: map<OpId, ProfileConfig>, log: seq<Metric>): seq<Update> {
    if log == [] then []
    else
      var before := Routed(profiles, log[..|log| - 1]);
      var e := log[|log| - 1];
      if e.op in profiles then before + [Update(profiles[e.op], e.counts.voters, e.counts.supporters)] else before
  }

  method HandleCountChanged(profiles: map<OpId, ProfileConfig>, processor: ResultProcessor, event: Metric)
    modifies processor
    ensures processor.Contents() == ProcessAll(old(processor.Contents()), Routed(profiles, [event]))
  {
    assert Routed(profiles, []) == [];
    if event.op in profiles {
      processor.ProcessMetricUpdate(profiles[event.op], event.counts.voters, event.counts.supporters);
    }
  }

  /** Handling each event as it is published is handling the whole log. */
  lemma HandledAsPublished(profiles: map<OpId, ProfileConfig>, log: seq<Metric>, event: Metric)
    ensures ProcessAll(EMPTY, Routed(profiles, log + [event]))
            == ProcessAll(ProcessAll(EMPTY, Routed(profiles, log)), Routed(profiles, [event]))
  {
    assert (log + [event])[..|log|] == log && [event][..0] == [];
    if event.op in profiles {
      var before, u := Routed(profiles, log), Update(profiles[event.op], event.counts.voters, event.counts.supporters);
      assert (before + [u])[..|before|] == before && [u][..0] == [];
    }
  }

  /** No other rule of any profile shares the slot of rule `j` of operation `op`. */
  ghost predicate Alone(profiles: map<OpId, ProfileConfig>, op: OpId, j: nat) {
    && op in profiles && j < |RulesOf(profiles[op])|
    && forall o, i :: o in profiles && 0 <= i < |RulesOf(profiles[o])|
                      && SlotOf(profiles[o].name, RulesOf(profiles[o])[i])
                         == SlotOf(profiles[op].name, RulesOf(profiles[op])[j])
                      ==> o == op && i == j
  }

  /** Rule `j` of operation `op` is the last of its profile on its slot, and no other profile has a rule on it. */
  ghost predicate Decides(profiles: map<OpId, ProfileConfig>, op: OpId, j: nat) {
    && op in profiles && j < |RulesOf(profiles[op])|
    && forall o, i :: o in profiles && 0 <= i < |RulesOf(profiles[o])|
                      && SlotOf(profiles[o].name, RulesOf(profiles[o])[i])
                         == SlotOf(profiles[op].name, RulesOf(profiles[op])[j])
                      ==> o == op && i <= j
  }

  /** What a rule says about each of a sequence of counts. */
  function Verdicts(rule: Rule, events: seq<Counts>): seq<bool> {
    if events == [] then []
    else Verdicts(rule, events[..|events| - 1])
         + [Wanted(rule, events[|events| - 1].voters, events[|events| - 1].supporters)]
  }

  lemma {:induction false} NobodyElseAsks(name: string, rules: seq<Rule>, slot: Slot, voters: int, supporters: int)
    requires forall i :: 0 <= i < |rules| ==> SlotOf(name, rules[i]) != slot
    ensures AskedBy(name, rules, slot, voters, supporters) == []
  {
    if rules != [] {
      NobodyElseAsks(name, rules[..|rules| - 1], slot, voters, supporters);
    }
  }

  lemma {:induction false} OneAsks(name: string, rules: seq<Rule>, j: nat, slot: Slot, voters: int, supporters: int)
    requires j < |rules| && SlotOf(name, rules[j]) == slot
    requires forall i :: 0 <= i < |rules| && i != j ==> SlotOf(name, rules[i]) != slot
    ensures AskedBy(name, rules, slot, voters, supporters) == [Wanted(rules[j], voters, supporters)]
  {
    var init := rules[..|rules| - 1];
    if j == |rules| - 1 {
      NobodyElseAsks(name, init, slot, voters, supporters);
    } else {
      OneAsks(name, init, j, slot, voters, supporters);
    }
  }

  /** One more event asks what the rules of its profile ask. */
  lemma AskedNext(profiles: map<OpId, ProfileConfig>, log: seq<Metric>, slot: Slot)
    requires log != []
    ensures var init, e := log[..|log| - 1], log[|log| - 1];
            Asked(Routed(profiles, log), slot)
            == Asked(Routed(profiles, init), slot)
               + if e.op in profiles
                 then AskedBy(profiles[e.op].name, RulesOf(profiles[e.op]), slot, e.counts.voters, e.counts.supporters)
                 else []
  {
    var before, e := Routed(profiles, log[..|log| - 1]), log[|log| - 1];
    if e.op in profiles {
      var u := Update(profiles[e.op], e.counts.voters, e.counts.supporters);
      assert (before + [u])[..|before|] == before;
    }
  }

  /** A slot with one rule is asked that rule's verdict on each event of its operation, and nothing else. */
  lemma {:induction false} AskedIsVerdicts(profiles: map<OpId, ProfileConfig>, log: seq<Metric>, op: OpId, j: nat)
    requires Alone(profiles, op, j)
    ensures var rule := RulesOf(profiles[op])[j];
            Asked(Routed(profiles, log), SlotOf(profiles[op].name, rule)) == Verdicts(rule, Of(log, op))
  {
    if log != [] {
      var init, e := log[..|log| - 1], log[|log| - 1];
      var slot := SlotOf(profiles[op].name, RulesOf(profiles[op])[j]);
      AskedIsVerdicts(profiles, init, op, j);
      AskedNext(profiles, log, slot);
      if e.op == op {
        OneAsks(profiles[op].name, RulesOf(profiles[op]), j, slot, e.counts.voters, e.counts.supporters);
      } else if e.op in profiles {
        NobodyElseAsks(profiles[e.op].name, RulesOf(profiles[e.op]), slot, e.counts.voters, e.counts.supporters);
      }
    }
  }

  /** The actions of a rule alone on its slot are its verdicts on the operation's events, with
      repetitions left out. */
  lemma ActionsFollowVerdicts(profiles: map<OpId, ProfileConfig>, log: seq<Metric>, op: OpId, j: nat)
    requires Alone(profiles, op, j)
    ensures var rule := RulesOf(profiles[op])[j];
            OnSlot(ProcessAll(EMPTY, Routed(profiles, log)).actions, SlotOf(profiles[op].name, rule))
            == Compress(Verdicts(rule, Of(log, op)))
  {
    AskedIsVerdicts(profiles, log, op, j);
    EdgeTriggered(Routed(profiles, log), SlotOf(profiles[op].name, RulesOf(profiles[op])[j]));
  }

  /** What was asked last of such a rule's slot is its verdict on the last event of its operation. */
  lemma {:induction false} LastAskedIsVerdict(profiles: map<OpId, ProfileConfig>, log: seq<Metric>, op: OpId, j: nat)
    requires Decides(profiles, op, j) && Of(log, op) != []
    ensures var rule, events := RulesOf(profiles[op])[j], Of(log, op);
            var asked := Asked(Routed(profiles, log), SlotOf(profiles[op].name, rule));
            && asked != []
            && asked[|asked| - 1] == Wanted(rule, events[|events| - 1].voters, events[|events| - 1].supporters)
  {
    var init, e := log[..|log| - 1], log[|log| - 1];
    var slot := SlotOf(profiles[op].name, RulesOf(profiles[op])[j]);
    AskedNext(profiles, log, slot);
    if e.op == op {
      LastRuleAsksLast(profiles[op].name, RulesOf(profiles[op]), j, e.counts.voters, e.counts.supporters);
    } else {
      LastAskedIsVerdict(profiles, init, op, j);
      if e.op in profiles {
        NobodyElseAsks(profiles[e.op].name, RulesOf(profiles[e.op]), slot, e.counts.voters, e.counts.supporters);
      }
    }
  }

  /** The last action on a slot is what was asked of it last, whoever asked. */
  lemma LastActionIsLastAsked(updates: seq<Update>, slot: Slot)
    requires Asked(updates, slot) != []
    ensures var actions, asked := OnSlot(ProcessAll(EMPTY, updates).actions, slot), Asked(updates, slot);
            actions != [] && actions[|actions| - 1] == asked[|asked| - 1]
  {
    EdgeTriggered(updates, slot);
    CompressEnds(Asked(updates, slot));
  }

  lemma LastActionIsVerdict(profiles: map<OpId, ProfileConfig>, log: seq<Metric>, op: OpId, j: nat, last: Counts)
    requires Decides(profiles, op, j) && Of(log, op) != [] && last == Of(log, op)[|Of(log, op)| - 1]
    ensures var rule := RulesOf(profiles[op])[j];
            var actions := OnSlot(ProcessAll(EMPTY, Routed(profiles, log)).actions, SlotOf(profiles[op].name, rule));
            actions != [] && actions[|actions| - 1] == Wanted(rule, last.voters, last.supporters)
  {
    LastAskedIsVerdict(profiles, log, op, j);
    LastActionIsLastAsked(Routed(profiles, log), SlotOf(profiles[op].name, RulesOf(profiles[op])[j]));
  }

  /** The events so far have been handled to the end. */
  predicate Handled<C, U>(steps: seq<Step<C, U>>) {
    forall i :: 0 <= i < |steps| ==> !steps[i].VoteThrown?
  }

  /** At every point of every run of safe steps whose events have been handled, the last action on the
      slot of a rule that is the last on it, and whose operation has been voted on, is the rule's verdict
      on the true weighted sums, if they fit in 32 bits. */
  lemma ActionsMatchVotes<C, U>(run: seq<State<C, U>>, steps: seq<Step<C, U>>, anonymous: U, n: nat,
                                profiles: map<OpId, ProfileConfig>, op: OpId, j: nat)
    requires IsTallyRun(run, steps, anonymous) && n < |run|
    requires forall i :: 0 <= i < n ==> Safe(run[i], steps[i], anonymous)
    requires Handled(steps[..n]) && Decides(profiles, op, j) && Of(run[n].log, op) != []
    requires Fits(Total(run[n], op, Voters)) && Fits(Total(run[n], op, Supporters))
    ensures var rule := RulesOf(profiles[op])[j];
            var slot := SlotOf(profiles[op].name, rule);
            var actions := OnSlot(ProcessAll(EMPTY, Routed(profiles, run[n].log)).actions, slot);
            && actions != []
            && actions[|actions| - 1] == Wanted(rule, Total(run[n], op, Voters), Total(run[n], op, Supporters))
  {
    var s := run[n];
    CountersAlongRuns(run, steps, anonymous, n);
    LastEvent(s, op);
    LastActionIsVerdict(profiles, s.log, op, j, Of(s.log, op)[|Of(s.log, op)| - 1]);
  }

  lemma LastEvent<C, U>(s: State<C, U>, op: OpId)
    requires Consistent(s) && Of(s.log, op) != []
    requires forall k: Counter :: Fits(Total(s, op, k)) ==> CountsOf(s.books, op).Get(k) == Total(s, op, k)
    requires Fits(Total(s, op, Voters)) && Fits(Total(s, op, Supporters))
    ensures var events := Of(s.log, op);
            events[|events| - 1].voters == Total(s, op, Voters)
                && events[|events| - 1].supporters == Total(s, op, Supporters)
  {
    assert Latest(s.books, s.log, op);
    assert CountsOf(s.books, op).Get(Voters) == Total(s, op, Voters);
    assert CountsOf(s.books, op).Get(Supporters) == Total(s, op, Supporters);
  }

  /** Two rules that share a key in one profile undo each other: the key is pressed for the first
      rule and released for the second in the same update. */
  lemma SharedKeysFight()
    ensures var first := PressKey("w", Some(1), None, None);
            var second := PressKey("w", Some(2), None, None);
            var updates := [Update(ProfileConfig("p", [], None, Some([first, second])), 1, 1)];
            && Wanted(first, 1, 1)
            && OnSlot(ProcessAll(EMPTY, updates).actions, SlotOf("p", first)) == [true, false]
  {
    var first := PressKey("w", Some(1), None, None);
    var second := PressKey("w", Some(2), None, None);
    var slot := SlotOf("p", first);
    var u := Update(ProfileConfig("p", [], None, Some([first, second])), 1, 1);
    assert AskedBy("p", [], slot, 1, 1) == [];
    assert [first, second][..1] == [first] && [first][..0] == [];
    assert AskedBy("p", [first], slot, 1, 1) == [true];
    assert AskedBy("p", [first, second], slot, 1, 1) == [true, false];
    assert [u][..0] == [];
    assert Asked([u], slot) == [true, false];
    EdgeTriggered([u], slot);
    assert [true, false][..1] == [true] && [true][..0] == [];
    assert Compress([true]) == [true];
  }
}
