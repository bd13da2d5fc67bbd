/** From metrics to actions: rules evaluated against voters, supporters and their rate, with a cache
    that lets an action through only when a rule's state changes. Rates are exact. */
module ResultProcessing {
  import opened Config
  import opened Wrappers

  datatype Update = Update(profile: ProfileConfig, voters: int, supporters: int)

  /** An entry of `_keyStateCache` or of `_outputStateCache`. */
  datatype Slot = KeySlot(stateKey: string) | OutputSlot(stateKey: string)

  datatype Effect = InjectKey(key: string, down: bool) | WriteLine(fd: int, payload: string)

  datatype Action = Action(slot: Slot, on: bool, effect: Effect)

  datatype Caches = Caches(keys: map<string, bool>, outputs: map<string, bool>, actions: seq<Action>)

  const EMPTY := Caches(map[], map[], [])

  // ----- rules -----

  function Rate(voters: int, supporters: int): real {
    if voters > 0 then supporters as real / voters as real else 0.0
  }

  /** A negative requirement is an upper bound, any other a lower bound, and none is always met. */
  predicate CheckRule(value: real, requirement: Option<real>) {
    match requirement
    case None => true
    case Some(r) => if r < 0.0 then value <= r else value >= r
  }

  function AsReal(requirement: Option<int>): Option<real> {
    match requirement
    case None => None
    case Some(r) => Some(r as real)
  }

  /** Whether a rule wants its key held or its output on. */
  predicate Wanted(rule: Rule, voters: int, supporters: int) {
    match rule
    case PressKey(_, v, s, rate) =>
      && CheckRule(voters as real, AsReal(v))
      && CheckRule(supporters as real, AsReal(s))
      && CheckRule(Rate(voters, supporters), rate)
    case Output(_, _, rate) => rate.Some? && Rate(voters, supporters) >= rate.value
  }

  function SlotOf(profileName: string, rule: Rule): Slot {
    match rule
    case PressKey(key, _, _, _) => KeySlot(profileName + ":" + key)
    case Output(id, _, _) => OutputSlot(profileName + ":" + id)
  }

  function EffectOf(rule: Rule, on: bool): Effect {
    match rule
    case PressKey(key, _, _, _) => InjectKey(key, on)
    case Output(id, fd, _) => WriteLine(fd, (if on then "+" else "-") + id + "\n")
  }

  function RulesOf(profile: ProfileConfig): seq<Rule> {
    match profile.voteResults
    case None => []
    case Some(rules) => rules
  }

  // ----- what the methods below compute -----

  function Cached(c: Caches, slot: Slot): Option<bool> {
    match slot
    case KeySlot(k) => if k in c.keys then Some(c.keys[k]) else None
    case OutputSlot(k) => if k in c.outputs then Some(c.outputs[k]) else None
  }

  /** A state lets an action through when the cache holds another one, or none, for its slot. */
  function Trigger(c: Caches, slot: Slot, on: bool, effect: Effect): Caches {
    if Cached(c, slot) == Some(on) then c
    else
      var actions := c.actions + [Action(slot, on, effect)];
      match slot
      case KeySlot(k) => c.(keys := c.keys[k := on], actions := actions)
      case OutputSlot(k) => c.(outputs := c.outputs[k := on], actions := actions)
  }

  function Evaluate(c: Caches, profileName: string, rule: Rule, voters: int, supporters: int): Caches {
    var on := Wanted(rule, voters, supporters);
    Trigger(c, SlotOf(profileName, rule), on, EffectOf(rule, on))
  }

  function EvaluateRules(c: Caches, profileName: string, rules: seq<Rule>, voters: int, supporters: int): Caches {
    if rules == [] then c
    else
      Evaluate(EvaluateRules(c, profileName, rules[..|rules| - 1], voters, supporters),
               profileName, rules[|rules| - 1], voters, supporters)
  }

  function Process(c: Caches, u: Update): Caches {
    EvaluateRules(c, u.profile.name, RulesOf(u.profile), u.voters, u.supporters)
  }

  function ProcessAll(c: Caches, updates: seq<Update>): Caches {
    if updates == [] then c
    else Process(ProcessAll(c, updates[..|updates| - 1]), updates[|updates| - 1])
  }

  // ----- the program -----

  class ResultProcessor {
    var keyStateCache: map<string, bool>
    var outputStateCache: map<string, bool>
    var actions: seq<Action>

    constructor ()
      ensures Contents() == EMPTY
    {
      keyStateCache, outputStateCache, actions := map[], map[], [];
    }

    function Contents(): Caches
      reads this
    {
      Caches(keyStateCache, outputStateCache, actions)
    }

    method EvaluatePressKeyRule(profileName: string, rule: Rule, voters: int, supporters: int, rate: real)
      requires rule.PressKey? && rate == Rate(voters, supporters)
      modifies this
      ensures Contents() == Evaluate(old(Contents()), profileName, rule, voters, supporters)
    {
      var stateKey := profileName + ":" + rule.key;
      var matchesVoters := CheckRule(voters as real, AsReal(rule.requireVoters));
      var matchesSupporters := CheckRule(supporters as real, AsReal(rule.requireSupporters));
      var matchesRate := CheckRule(rate, rule.requireSupportRate);
      var currentState := matchesVoters && matchesSupporters && matchesRate;
      if stateKey !in keyStateCache {
        keyStateCache := keyStateCache[stateKey := currentState];
        actions := actions + [Action(KeySlot(stateKey), currentState, InjectKey(rule.key, currentState))];
        return;
      }
      if currentState != keyStateCache[stateKey] {
        keyStateCache := keyStateCache[stateKey := currentState];
        actions := actions + [Action(KeySlot(stateKey), currentState, InjectKey(rule.key, currentState))];
      }
    }

    method EvaluateOutputRule(profileName: string, rule: Rule, voters: int, supporters: int, rate: real)
      requires rule.Output? && rate == Rate(voters, supporters)
      modifies this
      ensures Contents() == Evaluate(old(Contents()), profileName, rule, voters, supporters)
    {
      var stateKey := profileName + ":" + rule.id;
      var currentState := rule.requireSupportRate.Some? && rate >= rule.requireSupportRate.value;
      var payload := (if currentState then "+" else "-") + rule.id + "\n";
      if stateKey !in outputStateCache {
        outputStateCache := outputStateCache[stateKey := currentState];
        actions := actions + [Action(OutputSlot(stateKey), currentState, WriteLine(rule.fd, payload))];
        return;
      }
      if currentState != outputStateCache[stateKey] {
        outputStateCache := outputStateCache[stateKey := currentState];
        actions := actions + [Action(OutputSlot(stateKey), currentState, WriteLine(rule.fd, payload))];
      }
    }

    method ProcessMetricUpdate(profile: ProfileConfig, totalVoters: int, totalSupporters: int)
      modifies this
      ensures Contents() == Process(old(Contents()), Update(profile, totalVoters, totalSupporters))
    {
      if profile.voteResults == None {
        return;
      }
      var currentRate := if totalVoters > 0 then totalSupporters as real / totalVoters as real else 0.0;
      var rules := profile.voteResults.value;
      for i := 0 to |rules|
        invariant Contents() == EvaluateRules(old(Contents()), profile.name, rules[..i], totalVoters, totalSupporters)
      {
        assert rules[..i + 1][..i] == rules[..i];
        if rules[i].PressKey? {
          EvaluatePressKeyRule(profile.name, rules[i], totalVoters, totalSupporters, currentRate);
        } else {
          EvaluateOutputRule(profile.name, rules[i], totalVoters, totalSupporters, currentRate);
        }
      }
      assert rules[..|rules|] == rules;
    }
  }

  // ----- edge triggering -----

  /** The states of one slot's actions, in order. */
  function OnSlot(actions: seq<Action>, slot: Slot): seq<bool> {
    if actions == [] then []
    else
      var before := OnSlot(actions[..|actions| - 1], slot);
      var a := actions[|actions| - 1];
      if a.slot == slot then before + [a.on] else before
  }

  /** What the rules of one profile ask of a slot in one update, in order. */
  function AskedBy(profileName: string, rules: seq<Rule>, slot: Slot, voters: int, supporters: int): seq<bool> {
    if rules == [] then []
    else
      var before := AskedBy(profileName, rules[..|rules| - 1], slot, voters, supporters);
      var rule := rules[|rules| - 1];
      if SlotOf(profileName, rule) == slot then before + [Wanted(rule, voters, supporters)] else before
  }

  /** Everything that was ever asked of a slot. */
  function Asked(updates: seq<Update>, slot: Slot): seq<bool> {
    if updates == [] then []
    else
      var u := updates[|updates| - 1];
      Asked(updates[..|updates| - 1], slot) + AskedBy(u.profile.name, RulesOf(u.profile), slot, u.voters, u.supporters)
  }

  /** The sequence with repetitions of the preceding element left out. */
  function Compress(s: seq<bool>): seq<bool> {
    if s == [] then []
    else
      var before := Compress(s[..|s| - 1]);
      if |s| > 1 && s[|s| - 2] == s[|s| - 1] then before else before + [s[|s| - 1]]
  }

  predicate Alternates(s: seq<bool>) {
    forall i :: 0 < i < |s| ==> s[i] != s[i - 1]
  }

  /** `s` repeats each element of `c` one or more times. */
  ghost predicate Stutters(c: seq<bool>, s: seq<bool>)
    decreases |s|
  {
    if s == [] then c == []
    else
      && c != [] && c[|c| - 1] == s[|s| - 1]
      && (Stutters(c, s[..|s| - 1]) || Stutters(c[..|c| - 1], s[..|s| - 1]))
  }

  lemma {:induction false} CompressEnds(s: seq<bool>)
    requires s != []
    ensures Compress(s) != [] && Compress(s)[|Compress(s)| - 1] == s[|s| - 1] && Compress(s)[0] == s[0]
  {
    if |s| > 1 {
      CompressEnds(s[..|s| - 1]);
    }
  }

  lemma {:induction false} CompressAlternates(s: seq<bool>)
    ensures Alternates(Compress(s)) && Stutters(Compress(s), s)
  {
    if s != [] {
      var init := s[..|s| - 1];
      CompressAlternates(init);
      CompressEnds(s);
      if init != [] {
        CompressEnds(init);
      }
      assert Compress(s) == Compress(init) || Compress(s)[..|Compress(s)| - 1] == Compress(init);
    }
  }

  lemma {:induction false} AlternationIsCompress(c: seq<bool>, s: seq<bool>)
    requires Alternates(c) && Stutters(c, s)
    ensures c == Compress(s)
    decreases |s|
  {
    if s != [] {
      var init := s[..|s| - 1];
      if init != [] {
        CompressEnds(init);
      }
      if Stutters(c, init) {
        AlternationIsCompress(c, init);
      } else {
        AlternationIsCompress(c[..|c| - 1], init);
        assert c == c[..|c| - 1] + [c[|c| - 1]];
      }
    }
  }

  /** Compression is the one alternating sequence that the input stutters. */
  lemma CompressIsTheAlternation(c: seq<bool>, s: seq<bool>)
    ensures Alternates(c) && Stutters(c, s) <==> c == Compress(s)
  {
    CompressAlternates(s);
    if Alternates(c) && Stutters(c, s) {
      AlternationIsCompress(c, s);
    }
  }

  /** What the cache and the actions of a slot look like when `asked` is all that was ever asked of it. */
  ghost predicate Follows(c: Caches, slot: Slot, asked: seq<bool>) {
    && OnSlot(c.actions, slot) == Compress(asked)
    && Cached(c, slot) == if asked == [] then None else Some(asked[|asked| - 1])
  }

  lemma EvaluateFollows(c: Caches, profileName: string, rule: Rule, voters: int, supporters: int, slot: Slot,
      asked: seq<bool>)
    requires Follows(c, slot, asked)
    ensures Follows(Evaluate(c, profileName, rule, voters, supporters), slot,
                    if SlotOf(profileName, rule) == slot then asked + [Wanted(rule, voters, supporters)] else asked)
  {
    var on := Wanted(rule, voters, supporters);
    TriggerFollows(c, SlotOf(profileName, rule), on, EffectOf(rule, on), slot, asked);
  }

  lemma TriggerCaches(c: Caches, triggered: Slot, on: bool, effect: Effect, slot: Slot)
    ensures Cached(Trigger(c, triggered, on, effect), slot) == if triggered == slot then Some(on) else Cached(c, slot)
  {
  }

  lemma OnSlotAppend(actions: seq<Action>, a: Action, slot: Slot)
    ensures OnSlot(actions + [a], slot)
            == if a.slot == slot then OnSlot(actions, slot) + [a.on] else OnSlot(actions, slot)
  {
    assert (actions + [a])[..|actions|] == actions;
  }

  lemma CompressAppend(asked: seq<bool>, on: bool)
    ensures Compress(asked + [on])
            == if asked != [] && asked[|asked| - 1] == on then Compress(asked) else Compress(asked) + [on]
  {
    assert (asked + [on])[..|asked|] == asked;
  }

  lemma {:induction false} TriggerFollows(c: Caches, triggered: Slot, on: bool, effect: Effect, slot: Slot,
      asked: seq<bool>)
    requires Follows(c, slot, asked)
    ensures Follows(Trigger(c, triggered, on, effect), slot, if triggered == slot then asked + [on] else asked)
  {
    TriggerCaches(c, triggered, on, effect, slot);
    if Cached(c, triggered) != Some(on) {
      OnSlotAppend(c.actions, Action(triggered, on, effect), slot);
    }
    if triggered == slot {
      CompressAppend(asked, on);
    }
  }

  lemma {:induction false} RulesFollow(
      c: Caches, profileName: string, rules: seq<Rule>, voters: int, supporters: int, slot: Slot, asked: seq<bool>)
    requires Follows(c, slot, asked)
    ensures Follows(EvaluateRules(c, profileName, rules, voters, supporters), slot,
                    asked + AskedBy(profileName, rules, slot, voters, supporters))
  {
    if rules == [] {
      assert asked + AskedBy(profileName, rules, slot, voters, supporters) == asked;
    } else {
      var init, rule := rules[..|rules| - 1], rules[|rules| - 1];
      RulesFollow(c, profileName, init, voters, supporters, slot, asked);
      var before := asked + AskedBy(profileName, init, slot, voters, supporters);
      EvaluateFollows(EvaluateRules(c, profileName, init, voters, supporters), profileName, rule, voters, supporters,
          slot, before);
      assert asked + AskedBy(profileName, rules, slot, voters, supporters)
          == if SlotOf(profileName, rule) == slot then before + [Wanted(rule, voters, supporters)] else before;
    }
  }

  /** For every slot and every sequence of updates, the actions are what was asked with repetitions
      left out, and the cache holds what was asked last. */
  lemma {:induction false} EdgeTriggered(updates: seq<Update>, slot: Slot)
    ensures Follows(ProcessAll(EMPTY, updates), slot, Asked(updates, slot))
  {
    if updates != [] {
      var init, u := updates[..|updates| - 1], updates[|updates| - 1];
      EdgeTriggered(init, slot);
      RulesFollow(ProcessAll(EMPTY, init), u.profile.name, RulesOf(u.profile), u.voters, u.supporters, slot,
          Asked(init, slot));
    }
  }

  // ----- several rules on one slot -----

  /** After the rules of a profile a slot holds what was asked of it last, or what it held before. */
  lemma {:induction false} CachedAfterRules(
      c: Caches, name: string, rules: seq<Rule>, voters: int, supporters: int, slot: Slot)
    ensures var asked := AskedBy(name, rules, slot, voters, supporters);
            Cached(EvaluateRules(c, name, rules, voters, supporters), slot)
            == if asked == [] then Cached(c, slot) else Some(asked[|asked| - 1])
  {
    if rules != [] {
      var init, rule := rules[..|rules| - 1], rules[|rules| - 1];
      var on := Wanted(rule, voters, supporters);
      CachedAfterRules(c, name, init, voters, supporters, slot);
      TriggerCaches(EvaluateRules(c, name, init, voters, supporters), SlotOf(name, rule), on, EffectOf(rule, on), slot);
    }
  }

  /** Rule `l` is the last of the profile on its slot. */
  ghost predicate LastOnSlot(name: string, rules: seq<Rule>, l: nat) {
    l < |rules| && forall i :: l < i < |rules| ==> SlotOf(name, rules[i]) != SlotOf(name, rules[l])
  }

  /** The last rule on a slot asks last. */
  lemma {:induction false} LastRuleAsksLast(name: string, rules: seq<Rule>, l: nat, voters: int, supporters: int)
    requires LastOnSlot(name, rules, l)
    ensures var asked := AskedBy(name, rules, SlotOf(name, rules[l]), voters, supporters);
            asked != [] && asked[|asked| - 1] == Wanted(rules[l], voters, supporters)
  {
    if l < |rules| - 1 {
      LastRuleAsksLast(name, rules[..|rules| - 1], l, voters, supporters);
    }
  }

  /** After an update of its profile the verdict of a rule stands exactly if the last rule on the same
      slot has the same verdict, whatever the caches held. */
  lemma VerdictStands(c: Caches, name: string, rules: seq<Rule>, j: nat, l: nat, voters: int, supporters: int)
    requires j <= l && LastOnSlot(name, rules, l) && SlotOf(name, rules[j]) == SlotOf(name, rules[l])
    ensures Cached(EvaluateRules(c, name, rules, voters, supporters), SlotOf(name, rules[j]))
            == Some(Wanted(rules[j], voters, supporters))
            <==> Wanted(rules[j], voters, supporters) == Wanted(rules[l], voters, supporters)
  {
    CachedAfterRules(c, name, rules, voters, supporters, SlotOf(name, rules[l]));
    LastRuleAsksLast(name, rules, l, voters, supporters);
  }

  // ----- thresholds -----

  /** With votes in range the rate is a proportion. */
  lemma RateIsAProportion(voters: int, supporters: int)
    requires 0 <= supporters <= voters
    ensures 0.0 <= Rate(voters, supporters) <= 1.0
  {
    if voters > 0 {
      assert supporters as real / voters as real <= voters as real / voters as real;
    }
  }

  /** An output rule treats its threshold as CheckRule would exactly when it has one and it is not
      negative: a missing threshold never fires, and a negative one is not an upper bound. */
  lemma OutputThreshold(id: string, fd: int, rate: Option<real>, voters: int, supporters: int)
    requires 0 <= supporters <= voters
    ensures Wanted(Output(id, fd, rate), voters, supporters) == CheckRule(Rate(voters, supporters), rate)
            <==> rate.Some? && rate.value >= 0.0
  {
    RateIsAProportion(voters, supporters);
  }

  predicate LowerBound(requirement: Option<real>) {
    requirement.Some? ==> requirement.value >= 0.0
  }

  lemma RateGrows(voters: int, supporters: int, more: int)
    requires supporters <= more
    ensures Rate(voters, supporters) <= Rate(voters, more)
  {
    if voters > 0 {
      assert supporters as real / voters as real <= more as real / voters as real;
    }
  }

  /** More support never takes back what a rule wants, whatever it requires of the number of voters:
      always for an output rule, and for a key if what it requires of support are lower bounds. */
  lemma MoreSupportKeeps(rule: Rule, voters: int, supporters: int, more: int)
    requires supporters <= more && Wanted(rule, voters, supporters)
    requires rule.PressKey? ==> LowerBound(AsReal(rule.requireSupporters)) && LowerBound(rule.requireSupportRate)
    ensures Wanted(rule, voters, more)
  {
    RateGrows(voters, supporters, more);
  }
}
