/**
 "Latest wins" cancellation tokens: one current flag and one generation for each kind of
 request, replaced together under a mutex.
 */
module LatestTokens {
  import opened Wrappers

  type Token = nat

  /** The number of request kinds. */
  const KINDS: nat := 7

  /** A token that was handed out, with the generation it came with. */
  datatype Issue = Issue(kind: nat, token: Token, generation: nat)

  datatype State = State(
    generations: seq<nat>, current: seq<Option<Token>>, cancelled: set<Token>,
    issued: seq<Issue>)  // history: tokens in the order they were handed out

  /** `Flip` is anyone else setting a flag that was handed out: a deadline, or a bounded shutdown. */
  datatype Step = Prepare(kind: nat) | Cancel(kind: nat) | Flip(token: Token)

  const INIT: State := State(seq(KINDS, i => 0), seq(KINDS, i => None), {}, [])

  function Sets(flag: Option<Token>): set<Token> {
    if flag.Some? then {flag.value} else {}
  }

  predicate WellFormed(s: State) { |s.generations| == |s.current| == KINDS }

  /** A new flag is a new object: it is numbered by how many were made before. */
  function Apply(s: State, step: Step): (t: State)
    requires WellFormed(s)
    ensures WellFormed(t)
  {
    match step
    case Prepare(kind) =>
      if kind >= KINDS then s
      else
        var generation, token := s.generations[kind] + 1, |s.issued|;
        State(s.generations[kind := generation], s.current[kind := Some(token)],
              s.cancelled + Sets(s.current[kind]), s.issued + [Issue(kind, token, generation)])
    case Cancel(kind) =>
      if kind >= KINDS then s
      else s.(generations := s.generations[kind := s.generations[kind] + 1],
              current := s.current[kind := None],
              cancelled := s.cancelled + Sets(s.current[kind]))
    case Flip(token) => if token < |s.issued| then s.(cancelled := s.cancelled + {token}) else s
  }

  /** Tokens are numbered as they were handed out, under generations the table has reached. */
  ghost predicate Numbered(s: State)
    requires WellFormed(s)
  {
    forall i :: 0 <= i < |s.issued| ==>
      && s.issued[i].kind < KINDS && s.issued[i].token == i
      && s.issued[i].generation <= s.generations[s.issued[i].kind]
  }

  ghost predicate Ordered(issued: seq<Issue>) {
    forall i, j :: 0 <= i < j < |issued| && issued[i].kind == issued[j].kind ==>
      issued[i].generation < issued[j].generation
  }

  /** The current flag of a kind is the token of its generation. */
  ghost predicate CurrentIsIssued(s: State)
    requires WellFormed(s)
  {
    forall k :: 0 <= k < KINDS && s.current[k].Some? ==>
      && s.current[k].value < |s.issued|
      && s.issued[s.current[k].value] == Issue(k, s.current[k].value, s.generations[k])
  }

  /** Every other token is cancelled, and only tokens are. */
  ghost predicate OthersAreCancelled(s: State)
    requires WellFormed(s) && Numbered(s)
  {
    && (forall i :: 0 <= i < |s.issued| ==> s.current[s.issued[i].kind] == Some(i) || i in s.cancelled)
    && (forall i :: i in s.cancelled ==> i < |s.issued|)
  }

  ghost predicate Inv(s: State) {
    WellFormed(s) && Numbered(s) && Ordered(s.issued) && CurrentIsIssued(s) && OthersAreCancelled(s)
  }

  lemma InitInv()
    ensures Inv(INIT)
  {
  }

  lemma PrepareOrdered(s: State, kind: nat)
    requires WellFormed(s) && Numbered(s) && Ordered(s.issued) && kind < KINDS
    ensures Numbered(Apply(s, Prepare(kind))) && Ordered(Apply(s, Prepare(kind)).issued)
  {
  }

  lemma PrepareCurrent(s: State, kind: nat)
    requires WellFormed(s) && CurrentIsIssued(s) && kind < KINDS
    ensures CurrentIsIssued(Apply(s, Prepare(kind)))
  {
  }

  lemma PrepareCancels(s: State, kind: nat)
    requires WellFormed(s) && Numbered(s) && CurrentIsIssued(s) && OthersAreCancelled(s) && kind < KINDS
    ensures Numbered(Apply(s, Prepare(kind))) ==> OthersAreCancelled(Apply(s, Prepare(kind)))
  {
  }

  lemma StepInv(s: State, step: Step)
    requires Inv(s)
    ensures Inv(Apply(s, step))
  {
    if step.Prepare? && step.kind < KINDS {
      hide Numbered, Ordered, CurrentIsIssued, OthersAreCancelled, Apply;
      PrepareOrdered(s, step.kind);
      PrepareCurrent(s, step.kind);
      PrepareCancels(s, step.kind);
    }
  }

  function Run(s: State, steps: seq<Step>): State
    requires WellFormed(s)
    ensures WellFormed(Run(s, steps))
    decreases |steps|
  {
    if steps == [] then s else Run(Apply(s, steps[0]), steps[1..])
  }

  lemma {:induction false} RunInv(s: State, steps: seq<Step>)
    requires Inv(s)
    ensures Inv(Run(s, steps))
    decreases |steps|
  {
    if steps != [] {
      StepInv(s, steps[0]);
      RunInv(Apply(s, steps[0]), steps[1..]);
    }
  }

  /**
   Whatever the callers do, a token not yet cancelled is the last one its kind handed out
   and carries the kind's generation as it stands: a newer request, or a cancel, cancels
   every older one.
   */
  lemma LiveTokenIsLatest(steps: seq<Step>, i: nat)
    requires i < |Run(INIT, steps).issued| && i !in Run(INIT, steps).cancelled
    ensures var s := Run(INIT, steps);
            && s.issued[i].kind < KINDS && s.issued[i].generation == s.generations[s.issued[i].kind]
            && forall j :: i < j < |s.issued| ==> s.issued[j].kind != s.issued[i].kind
  {
    InitInv();
    RunInv(INIT, steps);
  }

  /** Within a kind, the order of generations is the order in which tokens were handed out. */
  lemma GenerationsFollowTokens(steps: seq<Step>, i: nat, j: nat)
    requires i < |Run(INIT, steps).issued| && j < |Run(INIT, steps).issued|
    requires Run(INIT, steps).issued[i].kind == Run(INIT, steps).issued[j].kind
    ensures i < j <==> Run(INIT, steps).issued[i].generation < Run(INIT, steps).issued[j].generation
  {
    InitInv();
    RunInv(INIT, steps);
    var issued := Run(INIT, steps).issued;
    if j < i { assert issued[j].generation < issued[i].generation; }
  }

  /** A new token is live, and its kind's only current one. */
  lemma NewTokenIsLive(s: State, kind: nat)
    requires Inv(s) && kind < 7
    ensures var t, i := Apply(s, Prepare(kind)), |s.issued|;
            && t.issued == s.issued + [Issue(kind, i, s.generations[kind] + 1)] && i !in t.cancelled
            && t.current == s.current[kind := Some(i)]
            && t.generations == s.generations[kind := s.generations[kind] + 1]
  {
  }

  /** The steps that end a token's life: a newer one of its kind, a cancel of its kind, its own flag set. */
  predicate Ends(step: Step, kind: nat, i: Token) {
    step == Prepare(kind) || step == Cancel(kind) || step == Flip(i)
  }

  predicate SomeEnds(steps: seq<Step>, kind: nat, i: Token) {
    exists m :: 0 <= m < |steps| && Ends(steps[m], kind, i)
  }

  lemma CancelledStep(s: State, step: Step, i: nat)
    requires Inv(s) && i < |s.issued|
    ensures var t := Apply(s, step);
            && i < |t.issued| && t.issued[i] == s.issued[i]
            && (i in t.cancelled <==> i in s.cancelled || Ends(step, s.issued[i].kind, i))
  {
  }

  lemma SomeEndsSplit(steps: seq<Step>, kind: nat, i: Token)
    requires steps != []
    ensures SomeEnds(steps, kind, i) <==> Ends(steps[0], kind, i) || SomeEnds(steps[1..], kind, i)
  {
    hide Ends;
    if SomeEnds(steps, kind, i) {
      var m :| 0 <= m < |steps| && Ends(steps[m], kind, i);
      if m > 0 { assert steps[1..][m - 1] == steps[m]; }
    }
    if SomeEnds(steps[1..], kind, i) {
      var m :| 0 <= m < |steps| - 1 && Ends(steps[1..][m], kind, i);
      assert steps[1..][m] == steps[m + 1];
    }
  }

  /** From any state of the table, a live token is cancelled by exactly these steps. */
  lemma {:induction false} CancelledExactly(s: State, steps: seq<Step>, i: nat)
    requires Inv(s) && i < |s.issued|
    ensures i in Run(s, steps).cancelled <==> i in s.cancelled || SomeEnds(steps, s.issued[i].kind, i)
    decreases |steps|
  {
    assert WellFormed(s);
    hide Inv, Apply, SomeEnds, Ends;
    if steps == [] {
      NothingEnds(s.issued[i].kind, i);
    } else {
      StepInv(s, steps[0]);
      CancelledStep(s, steps[0], i);
      SomeEndsSplit(steps, s.issued[i].kind, i);
      CancelledExactly(Apply(s, steps[0]), steps[1..], i);
    }
  }

  lemma NothingEnds(kind: nat, i: Token)
    ensures !SomeEnds([], kind, i)
  {
  }

  lemma {:induction false} RunConcat(s: State, a: seq<Step>, b: seq<Step>)
    requires WellFormed(s)
    ensures Run(s, a + b) == Run(Run(s, a), b)
    decreases |a|
  {
    hide Apply;
    if a == [] {
      assert a + b == b;
    } else {
      RunConcat(Apply(s, a[0]), a[1..], b);
      assert (a + b)[1..] == a[1..] + b;
    }
  }

  /**
   Over any run, the token handed out by one request is cancelled exactly when a newer
   request or a cancel of its kind follows, or somebody sets its own flag.
   */
  lemma TokenLivesUntilReplaced(before: seq<Step>, kind: nat, after: seq<Step>)
    requires kind < 7
    ensures var i := |Run(INIT, before).issued|;
            i in Run(INIT, before + [Prepare(kind)] + after).cancelled <==> SomeEnds(after, kind, i)
  {
    InitInv();
    RunInv(INIT, before);
    var s := Run(INIT, before);
    var t := Apply(s, Prepare(kind));
    NewTokenIsLive(s, kind);
    StepInv(s, Prepare(kind));
    RunConcat(INIT, before + [Prepare(kind)], after);
    RunConcat(INIT, before, [Prepare(kind)]);
    RunOne(s, Prepare(kind));
    CancelledExactly(t, after, |s.issued|);
  }

  lemma RunOne(s: State, step: Step)
    requires WellFormed(s)
    ensures Run(s, [step]) == Apply(s, step)
  {
    hide Apply;
    assert [step][1..] == [];
    assert Run(Apply(s, step), []) == Apply(s, step);
  }

  // --------------------------------------------------------------------- the table

  class TokenTable {
    const generations: array<nat>
    const flags: array<Option<Token>>
    var cancelled: set<Token>
    var issued: seq<Issue>

    ghost predicate Valid()
      reads this, generations, flags
    {
      generations.Length == flags.Length == KINDS
    }

    ghost function Value(): State
      reads this, generations, flags
    {
      State(generations[..], flags[..], cancelled, issued)
    }

    constructor ()
      ensures Valid() && Value() == INIT && fresh(generations) && fresh(flags)
    {
      generations := new nat[KINDS](i => 0);
      flags := new Option<Token>[KINDS](i => None);
      cancelled, issued := {}, [];
    }

    /** A kind out of range is refused, as the thrown out_of_range. */
    method PrepareLatestToken(kind: nat) returns (r: Result<Issue, ()>)
      requires Valid()
      modifies this, generations, flags
      ensures Valid() && Value() == Apply(old(Value()), Prepare(kind))
      ensures r == if kind < KINDS then Success(issued[|old(issued)|]) else Failure(())
    {
      if kind >= KINDS { return Failure(()); }
      var flag := |issued|;
      generations[kind] := generations[kind] + 1;
      var oldFlag := flags[kind];
      flags[kind] := Some(flag);
      if oldFlag.Some? { cancelled := cancelled + {oldFlag.value}; }
      var issue := Issue(kind, flag, generations[kind]);
      issued := issued + [issue];
      return Success(issue);
    }

    method Cancel(kind: nat)
      requires Valid()
      modifies this, generations, flags
      ensures Valid() && Value() == Apply(old(Value()), Step.Cancel(kind))
    {
      if kind >= KINDS { return; }
      var oldFlag := flags[kind];
      flags[kind] := None;
      if oldFlag.Some? { cancelled := cancelled + {oldFlag.value}; }
      generations[kind] := generations[kind] + 1;
    }
  }
}
