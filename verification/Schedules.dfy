/** Schedules put together from shorter ones. */
module Schedules {
  import opened Schema
  import opened Interleaving
  import opened Invariants

  const NONE := Pick(0, 0, 0, 0)

  /** Some schedule leads from `s` to `end`. */
  ghost predicate Leads(cfg: Config, s: State, end: State) {
    exists acts :: Schedulable(cfg, s, acts) && Run(cfg, s, acts) == end
  }

  lemma {:induction false} RunAppends(cfg: Config, s: State, first: seq<Action>, rest: seq<Action>)
    requires Schedulable(cfg, s, first) && Schedulable(cfg, Run(cfg, s, first), rest)
    ensures Schedulable(cfg, s, first + rest) && Run(cfg, s, first + rest) == Run(cfg, Run(cfg, s, first), rest)
    decreases |first|
  {
    if first == [] {
      assert first + rest == rest;
    } else {
      assert (first + rest)[1..] == first[1..] + rest;
      RunAppends(cfg, Next(cfg, s, first[0]), first[1..], rest);
    }
  }

  lemma LeadsOn(cfg: Config, s: State, mid: State, end: State)
    requires Leads(cfg, s, mid) && Leads(cfg, mid, end)
    ensures Leads(cfg, s, end)
  {
    var first :| Schedulable(cfg, s, first) && Run(cfg, s, first) == mid;
    var rest :| Schedulable(cfg, mid, rest) && Run(cfg, mid, rest) == end;
    RunAppends(cfg, s, first, rest);
  }

  lemma OneStep(cfg: Config, s: State, a: Action) returns (after: State)
    requires Inv(cfg, s) && Enabled(s, a)
    ensures after == Next(cfg, s, a) && Inv(cfg, after) && Leads(cfg, s, after)
  {
    after := Next(cfg, s, a);
    StepKeepsInv(cfg, s, a);
    var acts := [a];
    assert acts[1..] == [];
    assert Schedulable(cfg, after, []) && Run(cfg, after, []) == after;
    assert Schedulable(cfg, s, acts) && Run(cfg, s, acts) == after;
  }

  /** Process `i` runs its statement, whose effect is `e`. */
  lemma Moved(cfg: Config, s: State, i: nat, pick: Pick, e: Effect) returns (end: State)
    requires Inv(cfg, s) && Enabled(s, Advance(i, pick)) && Statement(cfg, s, s.procs[i], pick) == e
    ensures Leads(cfg, s, end) && Inv(cfg, end) && end == Perform(s, i, e)
  {
    end := OneStep(cfg, s, Advance(i, pick));
  }

  lemma Start(cfg: Config, s: State, pc: Pc) returns (end: State)
    requires Inv(cfg, s) && pc.Initial()
    ensures Leads(cfg, s, end) && Inv(cfg, end) && end == s.(procs := s.procs + [pc])
  {
    end := OneStep(cfg, s, Spawn(pc));
  }

  lemma Stay(cfg: Config, s: State)
    ensures Leads(cfg, s, s)
  {
    assert Schedulable(cfg, s, []) && Run(cfg, s, []) == s;
  }

  /** The clock moves on to `t`. */
  lemma WaitUntil(cfg: Config, s: State, t: Time) returns (end: State)
    requires Inv(cfg, s) && s.now <= t
    ensures Leads(cfg, s, end) && Inv(cfg, end) && end == s.(now := t)
  {
    end := OneStep(cfg, s, Tick(t - s.now));
  }
}
