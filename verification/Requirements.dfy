/** What a rule's requirements say in whole numbers, and what its actions and its key are for the votes
    themselves. Nothing here is stated through the definitions that the rule engine computes with. */
module Requirements {
  import opened Actuation
  import opened Ballots
  import opened Config
  import opened Int32
  import opened KeyActuation
  import opened ResultProcessing
  import opened Tally
  import opened TallyRefinement
  import opened Wrappers

  /** A number that is not negative is a lower bound, a negative one an upper bound. */
  predicate Meets(value: int, required: Option<int>) {
    match required
    case None => true
    case Some(n) => if n >= 0 then value >= n else value <= n
  }

  /** The same for the share of supporters, without a division; with no voters the share is zero. */
  predicate MeetsShare(voters: int, supporters: int, required: Option<real>) {
    match required
    case None => true
    case Some(r) =>
      if voters <= 0 then r == 0.0
      else if r >= 0.0 then supporters as real >= r * voters as real
      else supporters as real <= r * voters as real
  }

  /** A threshold is reached from below, whatever its sign, and a missing one never. */
  predicate Reaches(voters: int, supporters: int, threshold: Option<real>) {
    match threshold
    case None => false
    case Some(r) => if voters <= 0 then r <= 0.0 else supporters as real >= r * voters as real
  }

  predicate Demands(rule: Rule, voters: int, supporters: int) {
    match rule
    case PressKey(_, v, s, share) => Meets(voters, v) && Meets(supporters, s) && MeetsShare(voters, supporters, share)
    case Output(_, _, threshold) => Reaches(voters, supporters, threshold)
  }

  lemma Quotient(a: real, b: real, r: real)
    requires b > 0.0
    ensures a / b >= r <==> a >= r * b
    ensures a / b <= r <==> a <= r * b
  {
    var q := a / b;
    assert a == q * b;
    if q >= r {
      assert (q - r) * b >= 0.0;
    } else {
      assert (r - q) * b > 0.0;
    }
    if q <= r {
      assert (r - q) * b >= 0.0;
    } else {
      assert (q - r) * b > 0.0;
    }
  }

  /** A rule's verdict is that arithmetic. */
  lemma VerdictIsArithmetic(rule: Rule, voters: int, supporters: int)
    ensures Wanted(rule, voters, supporters) <==> Demands(rule, voters, supporters)
  {
    var share := rule.requireSupportRate;
    if voters > 0 && share.Some? {
      Quotient(supporters as real, voters as real, share.value);
    }
  }

  // ----- the actions and the keys -----

  /** The rules that are evaluated are those configured. */
  lemma RulesAreConfigured(profile: ProfileConfig)
    ensures RulesOf(profile) == if profile.voteResults == None then [] else profile.voteResults.value
  {
  }

  /** Where a rule's actions are remembered: by the profile and the key or the id, with a colon between. */
  function Remembered(profile: ProfileConfig, rule: Rule): Slot {
    match rule
    case PressKey(key, _, _, _) => KeySlot(profile.name + [':'] + key)
    case Output(id, _, _) => OutputSlot(profile.name + [':'] + id)
  }

  lemma RememberedSlot(profile: ProfileConfig, rule: Rule)
    ensures SlotOf(profile.name, rule) == Remembered(profile, rule)
  {
  }

  /** An action of a rule holds or releases its key, or writes its id to its file after a plus or a minus
      sign. */
  predicate SaidBy(profile: ProfileConfig, rule: Rule, a: Action) {
    && a.slot == Remembered(profile, rule)
    && match rule
       case PressKey(key, _, _, _) => a.effect == InjectKey(key, a.on)
       case Output(id, fd, _) => a.effect == WriteLine(fd, [if a.on then '+' else '-'] + id + ['\n'])
  }

  /** Every action is one of a rule of an updated profile. */
  ghost predicate Said(updates: seq<Update>, a: Action) {
    exists u, j :: 0 <= u < |updates| && updates[u].profile.voteResults.Some?
                   && 0 <= j < |updates[u].profile.voteResults.value|
                   && SaidBy(updates[u].profile, updates[u].profile.voteResults.value[j], a)
  }

  lemma EvaluationSays(c: Caches, profile: ProfileConfig, rule: Rule, voters: int, supporters: int)
    ensures var after := Evaluate(c, profile.name, rule, voters, supporters).actions;
            after == c.actions
            || (|after| == |c.actions| + 1 && after[..|c.actions|] == c.actions
                && SaidBy(profile, rule, after[|c.actions|]))
  {
    var on := Wanted(rule, voters, supporters);
    var a := Action(SlotOf(profile.name, rule), on, EffectOf(rule, on));
    assert (c.actions + [a])[..|c.actions|] == c.actions;
  }

  lemma {:induction false} RulesSay(c: Caches, updates: seq<Update>, u: nat, k: nat)
    requires u < |updates| && k <= |RulesOf(updates[u].profile)|
    requires forall a :: a in c.actions ==> Said(updates, a)
    ensures var p, update := updates[u].profile, updates[u];
            forall a :: a in EvaluateRules(c, p.name, RulesOf(p)[..k], update.voters, update.supporters).actions ==>
              Said(updates, a)
  {
    if k > 0 {
      var p, update := updates[u].profile, updates[u];
      var rules := RulesOf(p);
      RulesSay(c, updates, u, k - 1);
      assert rules[..k][..k - 1] == rules[..k - 1];
      var before := EvaluateRules(c, p.name, rules[..k - 1], update.voters, update.supporters);
      EvaluationSays(before, p, rules[k - 1], update.voters, update.supporters);
      RulesAreConfigured(p);
      var after := Evaluate(before, p.name, rules[k - 1], update.voters, update.supporters).actions;
      forall a | a in after ensures Said(updates, a) {
        if a !in before.actions {
          assert a == after[|before.actions|];
          assert SaidBy(p, p.voteResults.value[k - 1], a);
        }
      }
    }
  }

  lemma {:induction false} ActionsAreSaid(updates: seq<Update>, n: nat)
    requires n <= |updates|
    ensures forall a :: a in ProcessAll(EMPTY, updates[..n]).actions ==> Said(updates, a)
  {
    if n > 0 {
      ActionsAreSaid(updates, n - 1);
      assert updates[..n][..n - 1] == updates[..n - 1];
      var p := updates[n - 1].profile;
      RulesSay(ProcessAll(EMPTY, updates[..n - 1]), updates, n - 1, |RulesOf(p)|);
      assert RulesOf(p)[..|RulesOf(p)|] == RulesOf(p);
    }
  }

  /** The state that the last action on a cache entry left. */
  function LastState(actions: seq<Action>, slot: Slot): Option<bool> {
    if actions == [] then None
    else if actions[|actions| - 1].slot == slot then Some(actions[|actions| - 1].on)
    else LastState(actions[..|actions| - 1], slot)
  }

  lemma {:induction false} LastStateOnSlot(actions: seq<Action>, slot: Slot)
    requires OnSlot(actions, slot) != []
    ensures LastState(actions, slot) == Some(OnSlot(actions, slot)[|OnSlot(actions, slot)| - 1])
  {
    if actions[|actions| - 1].slot != slot {
      LastStateOnSlot(actions[..|actions| - 1], slot);
    }
  }

  /** The last action on a cache entry, at every point of every run of safe steps whose events have been
      handled, is what the last rule on the entry demands of the votes: of the weights of those for it,
      byte 1, and of all of them, bytes 1 and 2, if both sums fit in 32 bits. */
  lemma {:induction false} ActionsMeetDemands<C, U>(run: seq<State<C, U>>, steps: seq<Step<C, U>>, anonymous: U, n: nat,
                                 profiles: map<OpId, ProfileConfig>, op: OpId, j: nat)
    requires IsTallyRun(run, steps, anonymous) && n < |run|
    requires forall i :: 0 <= i < n ==> Safe(run[i], steps[i], anonymous)
    requires Handled(steps[..n]) && Decides(profiles, op, j) && Of(run[n].log, op) != []
    ensures forall c :: c in run[n].members.userOf ==> run[n].members.userOf[c] in run[n].multiplier
    ensures profiles[op].voteResults.Some? && j < |profiles[op].voteResults.value|
    ensures var ones, twos := Weighing(run[n], steps[..n], op, 1), Weighing(run[n], steps[..n], op, 2);
            Sized(ones) && Sized(ones + twos) ==>
              LastMeets(ProcessAll(EMPTY, Routed(profiles, run[n].log)).actions, profiles[op],
                        profiles[op].voteResults.value[j], ones + twos, ones)
  {
    SumsAreVotes(run, steps, anonymous, n, op);
    RulesAreConfigured(profiles[op]);
    var voters, supporters := Total(run[n], op, Voters), Total(run[n], op, Supporters);
    if Fits(voters) && Fits(supporters) {
      LastIsVerdict(run, steps, anonymous, n, profiles, op, j);
      LastIsDemand(ProcessAll(EMPTY, Routed(profiles, run[n].log)).actions, profiles[op],
                   profiles[op].voteResults.value[j], voters, supporters);
    }
  }

  /** The last action where the rule's actions are remembered is what the rule demands. */
  predicate LastMeets(actions: seq<Action>, profile: ProfileConfig, rule: Rule, voters: int, supporters: int) {
    LastState(actions, Remembered(profile, rule)) == Some(Demands(rule, voters, supporters))
  }

  lemma LastIsDemand(actions: seq<Action>, profile: ProfileConfig, rule: Rule, voters: int, supporters: int)
    requires LastState(actions, SlotOf(profile.name, rule)) == Some(Wanted(rule, voters, supporters))
    ensures LastMeets(actions, profile, rule, voters, supporters)
  {
    RememberedSlot(profile, rule);
    VerdictIsArithmetic(rule, voters, supporters);
  }

  lemma {:induction false} LastIsVerdict<C, U>(run: seq<State<C, U>>, steps: seq<Step<C, U>>, anonymous: U, n: nat,
                            profiles: map<OpId, ProfileConfig>, op: OpId, j: nat)
    requires IsTallyRun(run, steps, anonymous) && n < |run|
    requires forall i :: 0 <= i < n ==> Safe(run[i], steps[i], anonymous)
    requires Handled(steps[..n]) && Decides(profiles, op, j) && Of(run[n].log, op) != []
    requires Fits(Total(run[n], op, Voters)) && Fits(Total(run[n], op, Supporters))
    ensures var rule := RulesOf(profiles[op])[j];
            LastState(ProcessAll(EMPTY, Routed(profiles, run[n].log)).actions, SlotOf(profiles[op].name, rule))
            == Some(Wanted(rule, Total(run[n], op, Voters), Total(run[n], op, Supporters)))
  {
    ActionsMatchVotes(run, steps, anonymous, n, profiles, op, j);
    LastStateOnSlot(ProcessAll(EMPTY, Routed(profiles, run[n].log)).actions,
                    SlotOf(profiles[op].name, RulesOf(profiles[op])[j]));
  }

  predicate Sized(x: int) {
    -0x8000_0000 <= x < 0x8000_0000
  }

  lemma {:induction false} SumsAreVotes<C, U>(
      run: seq<State<C, U>>, steps: seq<Step<C, U>>, anonymous: U, n: nat, op: OpId)
    requires IsTallyRun(run, steps, anonymous) && n < |run|
    requires forall i :: 0 <= i < n ==> Safe(run[i], steps[i], anonymous)
    ensures forall c :: c in run[n].members.userOf ==> run[n].members.userOf[c] in run[n].multiplier
    ensures Total(run[n], op, Supporters) == Weighing(run[n], steps[..n], op, 1)
    ensures Total(run[n], op, Voters) == Weighing(run[n], steps[..n], op, 1) + Weighing(run[n], steps[..n], op, 2)
  {
    CountersAlongRuns(run, steps, anonymous, n);
    TotalsByByte(run[n], steps[..n], op);
    TotalIsTrue(run, steps, anonymous, n, op, Supporters);
    TotalIsTrue(run, steps, anonymous, n, op, Voters);
  }

  /** And a key that a rule owns is held exactly if the rule demands it of the votes. */
  lemma {:induction false} KeysMeetDemands<C, U>(run: seq<State<C, U>>, steps: seq<Step<C, U>>, anonymous: U, n: nat,
                              profiles: map<OpId, ProfileConfig>, op: OpId, j: nat)
    requires IsTallyRun(run, steps, anonymous) && n < |run|
    requires forall i :: 0 <= i < n ==> Safe(run[i], steps[i], anonymous)
    requires Handled(steps[..n]) && OwnsKey(profiles, op, j) && Of(run[n].log, op) != []
    ensures forall c :: c in run[n].members.userOf ==> run[n].members.userOf[c] in run[n].multiplier
    ensures profiles[op].voteResults.Some? && j < |profiles[op].voteResults.value|
    ensures profiles[op].voteResults.value[j].PressKey?
    ensures var rule := profiles[op].voteResults.value[j];
            var ones, twos := Weighing(run[n], steps[..n], op, 1), Weighing(run[n], steps[..n], op, 2);
            Sized(ones) && Sized(ones + twos) ==>
              KeyState(ProcessAll(EMPTY, Routed(profiles, run[n].log)).actions, rule.key)
              == Some(Demands(rule, ones + twos, ones))
  {
    SumsAreVotes(run, steps, anonymous, n, op);
    RulesAreConfigured(profiles[op]);
    var voters, supporters := Total(run[n], op, Voters), Total(run[n], op, Supporters);
    if Fits(voters) && Fits(supporters) {
      KeysMatchVotes(run, steps, anonymous, n, profiles, op, j);
      VerdictIsArithmetic(profiles[op].voteResults.value[j], voters, supporters);
    }
  }
}
