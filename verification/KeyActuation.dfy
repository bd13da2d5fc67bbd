/** What happens to the keys themselves. A cache entry is named by a profile and a key together, but the
    key that is held down is one for all profiles. */
module KeyActuation {
  import opened Actuation
  import opened Config
  import opened Int32
  import opened ResultProcessing
  import opened Tally
  import opened TallyRefinement
  import opened Wrappers

  predicate Injects(a: Action, key: string) {
    a.effect.InjectKey? && a.effect.key == key
  }

  /** Whether the key was last pressed or released, if it ever was. */
  function KeyState(actions: seq<Action>, key: string): Option<bool> {
    if actions == [] then None
    else if Injects(actions[|actions| - 1], key) then Some(actions[|actions| - 1].effect.down)
    else KeyState(actions[..|actions| - 1], key)
  }

  predicate OnKey(rule: Rule, key: string) {
    rule.PressKey? && rule.key == key
  }

  function KeyEntry(name: string, key: string): Slot {
    KeySlot(name + ":" + key)
  }

  /** Within one profile two rules share a cache entry exactly if they share a key. */
  lemma EntryOfKey(name: string, rule: Rule, key: string)
    ensures SlotOf(name, rule) == KeyEntry(name, key) <==> OnKey(rule, key)
  {
    if rule.PressKey? {
      assert (name + ":" + rule.key)[|name| + 1..] == rule.key;
      assert (name + ":" + key)[|name| + 1..] == key;
    }
  }

  // ----- one update -----

  /** Everything asked is what the entry holds already. */
  predicate NothingNew(asked: seq<bool>, held: Option<bool>) {
    forall i :: 0 <= i < |asked| ==> held == Some(asked[i])
  }

  lemma KeyAfterRule(c: Caches, name: string, rule: Rule, voters: int, supporters: int, key: string)
    ensures var on := Wanted(rule, voters, supporters);
            KeyState(Evaluate(c, name, rule, voters, supporters).actions, key)
            == if OnKey(rule, key) && Cached(c, KeyEntry(name, key)) != Some(on) then Some(on)
                else KeyState(c.actions, key)
  {
    var on := Wanted(rule, voters, supporters);
    var a := Action(SlotOf(name, rule), on, EffectOf(rule, on));
    assert (c.actions + [a])[..|c.actions|] == c.actions;
    EntryOfKey(name, rule, key);
  }

  /** An update leaves a key as its profile's rules on the key ask last, if they ask for anything that
      their cache entry does not hold, and otherwise as it was. */
  lemma {:induction false} KeyAfterUpdate(
      c: Caches, name: string, rules: seq<Rule>, voters: int, supporters: int, key: string)
    ensures var asked := AskedBy(name, rules, KeyEntry(name, key), voters, supporters);
            KeyState(EvaluateRules(c, name, rules, voters, supporters).actions, key)
            == if NothingNew(asked, Cached(c, KeyEntry(name, key))) then KeyState(c.actions, key)
               else Some(asked[|asked| - 1])
  {
    if rules != [] {
      var init, rule := rules[..|rules| - 1], rules[|rules| - 1];
      KeyAfterUpdate(c, name, init, voters, supporters, key);
      CachedAfterRules(c, name, init, voters, supporters, KeyEntry(name, key));
      KeyAfterRule(EvaluateRules(c, name, init, voters, supporters), name, rule, voters, supporters, key);
      EntryOfKey(name, rule, key);
      OneMoreAsked(AskedBy(name, init, KeyEntry(name, key), voters, supporters), Wanted(rule, voters, supporters),
                   Cached(c, KeyEntry(name, key)));
    }
  }

  lemma OneMoreAsked(asked: seq<bool>, on: bool, held: Option<bool>)
    ensures NothingNew(asked + [on], held) <==> NothingNew(asked, held) && held == Some(on)
  {
    assert (asked + [on])[|asked|] == on;
    assert forall i :: 0 <= i < |asked| ==> (asked + [on])[i] == asked[i];
  }

  /** After an update of its profile a rule's key is as the rule wants it exactly if the last rule of the
      profile on the key agrees with it, or if nothing new is asked and the key was already so. */
  lemma KeyExact(c: Caches, name: string, rules: seq<Rule>, j: nat, l: nat, voters: int, supporters: int)
    requires j <= l && LastOnSlot(name, rules, l) && SlotOf(name, rules[j]) == SlotOf(name, rules[l])
            && rules[j].PressKey?
    ensures var key, on := rules[j].key, Wanted(rules[j], voters, supporters);
            var asked := AskedBy(name, rules, KeyEntry(name, key), voters, supporters);
            KeyState(EvaluateRules(c, name, rules, voters, supporters).actions, key) == Some(on)
            <==> if NothingNew(asked, Cached(c, KeyEntry(name, key))) then KeyState(c.actions, key) == Some(on)
                 else on == Wanted(rules[l], voters, supporters)
  {
    KeyAfterUpdate(c, name, rules, voters, supporters, rules[j].key);
    LastRuleAsksLast(name, rules, l, voters, supporters);
  }

  // ----- every run -----

  /** Besides deciding its cache entry, the rule has its key for its profile alone. */
  ghost predicate OwnsKey(profiles: map<OpId, ProfileConfig>, op: OpId, j: nat) {
    && Decides(profiles, op, j) && RulesOf(profiles[op])[j].PressKey?
    && forall o, i :: o in profiles && 0 <= i < |RulesOf(profiles[o])| ==>
         (OnKey(RulesOf(profiles[o])[i], RulesOf(profiles[op])[j].key) ==> o == op)
  }

  /** The actions on the key are those on the cache entry, and do what they say. */
  ghost predicate Coincide(actions: seq<Action>, key: string, slot: Slot) {
    forall i :: 0 <= i < |actions| ==>
      (Injects(actions[i], key) <==> actions[i].slot == slot)
      && (Injects(actions[i], key) ==> actions[i].effect.down == actions[i].on)
  }

  lemma CoincideAfterRule(c: Caches, name: string, rule: Rule, voters: int, supporters: int, key: string, slot: Slot)
    requires Coincide(c.actions, key, slot) && (OnKey(rule, key) <==> SlotOf(name, rule) == slot)
    ensures Coincide(Evaluate(c, name, rule, voters, supporters).actions, key, slot)
  {
  }

  lemma {:induction false} CoincideAfterUpdate(
      c: Caches, name: string, rules: seq<Rule>, voters: int, supporters: int, key: string, slot: Slot)
    requires Coincide(c.actions, key, slot)
    requires forall i :: 0 <= i < |rules| ==> (OnKey(rules[i], key) <==> SlotOf(name, rules[i]) == slot)
    ensures Coincide(EvaluateRules(c, name, rules, voters, supporters).actions, key, slot)
  {
    if rules != [] {
      var init, rule := rules[..|rules| - 1], rules[|rules| - 1];
      CoincideAfterUpdate(c, name, init, voters, supporters, key, slot);
      CoincideAfterRule(EvaluateRules(c, name, init, voters, supporters), name, rule, voters, supporters, key, slot);
    }
  }

  lemma {:induction false} CoincideAlongLogs(profiles: map<OpId, ProfileConfig>, log: seq<Metric>, op: OpId, j: nat)
    requires OwnsKey(profiles, op, j)
    ensures var key := RulesOf(profiles[op])[j].key;
            Coincide(ProcessAll(EMPTY, Routed(profiles, log)).actions, key, KeyEntry(profiles[op].name, key))
  {
    if log != [] {
      var init, e := log[..|log| - 1], log[|log| - 1];
      CoincideAlongLogs(profiles, init, op, j);
      if e.op in profiles {
        var before, u := Routed(profiles, init), Update(profiles[e.op], e.counts.voters, e.counts.supporters);
        assert (before + [u])[..|before|] == before;
        var key := RulesOf(profiles[op])[j].key;
        OneOwner(profiles, op, j, e.op);
        CoincideAfterUpdate(ProcessAll(EMPTY, before), profiles[e.op].name, RulesOf(profiles[e.op]),
                            e.counts.voters, e.counts.supporters, key, KeyEntry(profiles[op].name, key));
      }
    }
  }

  lemma OneOwner(profiles: map<OpId, ProfileConfig>, op: OpId, j: nat, o: OpId)
    requires OwnsKey(profiles, op, j) && o in profiles
    ensures var key, rules := RulesOf(profiles[op])[j].key, RulesOf(profiles[o]);
            forall i :: 0 <= i < |rules| ==>
              (OnKey(rules[i], key) <==> SlotOf(profiles[o].name, rules[i]) == KeyEntry(profiles[op].name, key))
  {
    var key, rules := RulesOf(profiles[op])[j].key, RulesOf(profiles[o]);
    assert SlotOf(profiles[op].name, RulesOf(profiles[op])[j]) == KeyEntry(profiles[op].name, key);
    forall i | 0 <= i < |rules|
      ensures OnKey(rules[i], key) <==> SlotOf(profiles[o].name, rules[i]) == KeyEntry(profiles[op].name, key)
    {
      EntryOfKey(profiles[op].name, rules[i], key);
    }
  }

  /** Then the key is as the last action on the entry left it. */
  lemma {:induction false} KeyFollowsEntry(actions: seq<Action>, key: string, slot: Slot)
    requires Coincide(actions, key, slot) && OnSlot(actions, slot) != []
    ensures KeyState(actions, key) == Some(OnSlot(actions, slot)[|OnSlot(actions, slot)| - 1])
  {
    if actions[|actions| - 1].slot != slot {
      KeyFollowsEntry(actions[..|actions| - 1], key, slot);
    }
  }

  /** A rule that owns its key has it as it wants after every sequence of events that has one of its operation. */
  lemma KeyIsVerdict(profiles: map<OpId, ProfileConfig>, log: seq<Metric>, op: OpId, j: nat, last: Counts)
    requires OwnsKey(profiles, op, j) && Of(log, op) != [] && last == Of(log, op)[|Of(log, op)| - 1]
    ensures var rule := RulesOf(profiles[op])[j];
            KeyState(ProcessAll(EMPTY, Routed(profiles, log)).actions, rule.key)
            == Some(Wanted(rule, last.voters, last.supporters))
  {
    var rule := RulesOf(profiles[op])[j];
    CoincideAlongLogs(profiles, log, op, j);
    LastActionIsVerdict(profiles, log, op, j, last);
    KeyFollowsEntry(ProcessAll(EMPTY, Routed(profiles, log)).actions, rule.key, SlotOf(profiles[op].name, rule));
  }

  /** At every point of every run of safe steps whose events have been handled, such a rule's key is held
      exactly if the rule wants it for the true weighted sums, if its operation has been voted on and the
      sums fit in 32 bits. */
  lemma KeysMatchVotes<C, U>(run: seq<State<C, U>>, steps: seq<Step<C, U>>, anonymous: U, n: nat,
                             profiles: map<OpId, ProfileConfig>, op: OpId, j: nat)
    requires IsTallyRun(run, steps, anonymous) && n < |run|
    requires forall i :: 0 <= i < n ==> Safe(run[i], steps[i], anonymous)
    requires Handled(steps[..n]) && OwnsKey(profiles, op, j) && Of(run[n].log, op) != []
    requires Fits(Total(run[n], op, Voters)) && Fits(Total(run[n], op, Supporters))
    ensures var rule := RulesOf(profiles[op])[j];
            KeyState(ProcessAll(EMPTY, Routed(profiles, run[n].log)).actions, rule.key)
            == Some(Wanted(rule, Total(run[n], op, Voters), Total(run[n], op, Supporters)))
  {
    var s := run[n];
    CountersAlongRuns(run, steps, anonymous, n);
    LastEvent(s, op);
    KeyIsVerdict(profiles, s.log, op, j, Of(s.log, op)[|Of(s.log, op)| - 1]);
  }

  // ----- keys without a colon -----

  ghost predicate PlainKeys(profiles: map<OpId, ProfileConfig>) {
    forall o, i :: o in profiles && 0 <= i < |RulesOf(profiles[o])| ==>
      (RulesOf(profiles[o])[i].PressKey? ==> ':' !in RulesOf(profiles[o])[i].key)
  }

  /** The last colon of an entry is the one between the name and a key without colons. */
  lemma PlainEntry(p: string, key: string, q: string, other: string)
    requires ':' !in key && ':' !in other && p + ":" + key == q + ":" + other
    ensures p == q && key == other
  {
    var entry := p + ":" + key;
    assert entry[|p|] == ':' && entry[|q|] == ':';
    assert forall i :: |p| < i < |entry| ==> entry[i] == key[i - |p| - 1];
    assert forall i :: |q| < i < |entry| ==> entry[i] == other[i - |q| - 1];
    assert entry[..|p|] == p && entry[|p| + 1..] == key;
    assert entry[..|q|] == q && entry[|q| + 1..] == other;
  }

  /** Where no key has a colon in it, a rule owns its key exactly if no other profile has a rule on the
      key and no later rule of its own profile is on it. */
  lemma PlainKeyOwned(profiles: map<OpId, ProfileConfig>, op: OpId, j: nat)
    requires PlainKeys(profiles)
    requires op in profiles && j < |RulesOf(profiles[op])| && RulesOf(profiles[op])[j].PressKey?
    ensures OwnsKey(profiles, op, j)
            <==> forall o, i :: o in profiles && 0 <= i < |RulesOf(profiles[o])| ==>
                   (OnKey(RulesOf(profiles[o])[i], RulesOf(profiles[op])[j].key) ==> o == op && i <= j)
  {
    var name, key := profiles[op].name, RulesOf(profiles[op])[j].key;
    forall o, i | o in profiles && 0 <= i < |RulesOf(profiles[o])|
      ensures SlotOf(profiles[o].name, RulesOf(profiles[o])[i]) == KeyEntry(name, key)
              ==> OnKey(RulesOf(profiles[o])[i], key)
      ensures o == op && OnKey(RulesOf(profiles[o])[i], key)
              ==> SlotOf(profiles[o].name, RulesOf(profiles[o])[i]) == KeyEntry(name, key)
    {
      var rule := RulesOf(profiles[o])[i];
      if SlotOf(profiles[o].name, rule) == KeyEntry(name, key) {
        PlainEntry(profiles[o].name, rule.key, name, key);
      }
    }
  }

  // ----- where a rule does not own its key -----

  /** A profile with one rule, which holds a key from some number of voters on. */
  function Single(name: string, key: string, voters: int): ProfileConfig {
    ProfileConfig(name, [], None, Some([PressKey(key, Some(voters), None, None)]))
  }

  lemma SingleUpdate(c: Caches, name: string, key: string, threshold: int, voters: int, supporters: int)
    requires threshold >= 0
    ensures var rule := PressKey(key, Some(threshold), None, None);
            var on := voters >= threshold;
            Process(c, Update(Single(name, key, threshold), voters, supporters))
            == Trigger(c, KeyEntry(name, key), on, InjectKey(key, on))
  {
    var rule := PressKey(key, Some(threshold), None, None);
    assert [rule][..0] == [];
    assert EvaluateRules(c, name, [], voters, supporters) == c;
    assert Wanted(rule, voters, supporters) == (voters >= threshold);
  }

  lemma NameOfEntry(p: string, q: string, key: string)
    ensures KeyEntry(p, key) == KeyEntry(q, key) <==> p == q
  {
    assert (p + ":" + key)[..|p|] == p && (q + ":" + key)[..|q|] == q;
  }

  /** Each of two profiles with one rule, and names that differ, is alone on its cache entry. */
  lemma EachAlone(p: string, q: string, key: string)
    requires p != q
    ensures var profiles: map<OpId, ProfileConfig> := map[1 := Single(p, key, 1), 2 := Single(q, key, 5)];
            Alone(profiles, 1, 0) && Alone(profiles, 2, 0)
  {
    NameOfEntry(p, q, key);
  }

  /** Two profiles with a rule each on one key, whatever their names: although each rule is alone on its
      cache entry, the second releases the key that the first wants held. */
  lemma ProfilesFight(p: string, q: string, key: string)
    requires p != q
    ensures var profiles: map<OpId, ProfileConfig> := map[1 := Single(p, key, 1), 2 := Single(q, key, 5)];
            var log := [Metric(1, Counts(1, 1)), Metric(2, Counts(1, 1))];
            && Alone(profiles, 1, 0) && Alone(profiles, 2, 0)
            && Wanted(RulesOf(profiles[1])[0], 1, 1)
            && KeyState(ProcessAll(EMPTY, Routed(profiles, log)).actions, key) == Some(false)
  {
    var profiles: map<OpId, ProfileConfig> := map[1 := Single(p, key, 1), 2 := Single(q, key, 5)];
    EachAlone(p, q, key);
    BothRouted(profiles, Counts(1, 1), Counts(1, 1));
    Fight(p, q, key);
    TwoUpdates(Update(profiles[1], 1, 1), Update(profiles[2], 1, 1));
  }

  lemma Fight(p: string, q: string, key: string)
    requires p != q
    ensures Wanted(RulesOf(Single(p, key, 1))[0], 1, 1)
    ensures var c := Process(Process(EMPTY, Update(Single(p, key, 1), 1, 1)), Update(Single(q, key, 5), 1, 1));
            KeyState(c.actions, key) == Some(false)
  {
    var c := Process(EMPTY, Update(Single(p, key, 1), 1, 1));
    NameOfEntry(p, q, key);
    SingleUpdate(EMPTY, p, key, 1, 1, 1);
    SingleUpdate(c, q, key, 5, 1, 1);
  }

  lemma BothRouted(profiles: map<OpId, ProfileConfig>, a: Counts, b: Counts)
    requires 1 in profiles && 2 in profiles
    ensures Routed(profiles, [Metric(1, a), Metric(2, b)])
            == [Update(profiles[1], a.voters, a.supporters), Update(profiles[2], b.voters, b.supporters)]
  {
    assert [Metric(1, a), Metric(2, b)][..1] == [Metric(1, a)] && [Metric(1, a)][..0] == [];
    assert Routed(profiles, []) == [];
    assert Routed(profiles, [Metric(1, a)]) == [Update(profiles[1], a.voters, a.supporters)];
  }

  lemma TwoUpdates(first: Update, second: Update)
    ensures ProcessAll(EMPTY, [first, second]) == Process(Process(EMPTY, first), second)
  {
    assert [first, second][..1] == [first] && [first][..0] == [];
    assert ProcessAll(EMPTY, [first]) == Process(EMPTY, first);
  }

  /** Cache entries can collide although the keys differ: a colon in a name or a key is enough. The key
      of the first profile stays held although its only rule wants it released. */
  lemma NamesCollide(a: string, b: string, key: string)
    ensures KeyEntry(a + ":" + b, key) == KeyEntry(a, b + ":" + key)
    ensures var first, second := Single(a + ":" + b, key, 1), Single(a, b + ":" + key, 5);
            var c := Process(Process(Process(EMPTY, Update(first, 1, 1)), Update(second, 1, 1)), Update(first, 0, 0));
            !Wanted(RulesOf(first)[0], 0, 0) && KeyState(c.actions, key) == Some(true)
  {
    var name, other := a + ":" + b, b + ":" + key;
    assert name + ":" + key == a + ":" + other;
    assert |other| > |key|;
    Collide(name, a, key, other);
  }

  lemma Collide(name: string, a: string, key: string, other: string)
    requires KeyEntry(name, key) == KeyEntry(a, other) && key != other
    ensures var first, second := Single(name, key, 1), Single(a, other, 5);
            var c := Process(Process(Process(EMPTY, Update(first, 1, 1)), Update(second, 1, 1)), Update(first, 0, 0));
            !Wanted(RulesOf(first)[0], 0, 0) && KeyState(c.actions, key) == Some(true)
  {
    var slot := KeyEntry(name, key);
    SingleUpdate(EMPTY, name, key, 1, 1, 1);
    var c1 := Trigger(EMPTY, slot, true, InjectKey(key, true));
    SingleUpdate(c1, a, other, 5, 1, 1);
    var c2 := Trigger(c1, slot, false, InjectKey(other, false));
    SingleUpdate(c2, name, key, 1, 0, 0);
    assert Cached(c2, slot) == Some(false);
    assert c2.actions[..1] == c1.actions;
    assert KeyState(c1.actions, key) == Some(true);
    assert Wanted(RulesOf(Single(name, key, 1))[0], 0, 0) == false;
  }
}
