/** What a conversion run does to the outside world, as a value: the directories it creates,
    the files it writes (each fully overwriting any earlier file of that path), the errors it
    logs and carries on after, and whether it ran to the end or was stopped by a panic. */
module Plan {

  datatype Effect =
    | MakeDir(path: string)
    | WriteFile(path: string, content: string)
      /** handleError: the run prints the error and continues */
    | LogError(context: string, message: string)

  datatype Outcome = Completed | Aborted(cause: string)

  datatype Run = Run(effects: seq<Effect>, outcome: Outcome)

  const Done := Run([], Completed)

  /** Running `a` and then, unless `a` was aborted, `b`. */
  function Then(a: Run, b: Run): (r: Run)
    ensures a.outcome.Aborted? ==> r == a
    ensures a.outcome.Completed? ==> r.effects == a.effects + b.effects && r.outcome == b.outcome
  {
    if a.outcome.Aborted? then a else Run(a.effects + b.effects, b.outcome)
  }

  /** The empty run is a unit of sequencing on both sides. */
  lemma ThenDone(a: Run)
    ensures Then(Done, a) == a
    ensures Then(a, Done) == a
  {
    assert a.effects + [] == a.effects;
  }

  /** Sequencing is associative, so a run over a list can be split at any point. */
  lemma ThenAssoc(a: Run, b: Run, c: Run)
    ensures Then(Then(a, b), c) == Then(a, Then(b, c))
  {
    if a.outcome.Completed? && b.outcome.Completed? {
      assert (a.effects + b.effects) + c.effects == a.effects + (b.effects + c.effects);
    }
  }

  /** The passes of a loop run one after the other, stopping at the first that aborts. */
  function Sequence(runs: seq<Run>): Run
  {
    if runs == [] then Done
    else Then(Sequence(runs[..|runs| - 1]), runs[|runs| - 1])
  }

  /** One more pass of the loop. */
  lemma SequenceStep(runs: seq<Run>, i: nat)
    requires i < |runs|
    ensures Sequence(runs[..i + 1]) == Then(Sequence(runs[..i]), runs[i])
  {
    assert runs[..i + 1][..i] == runs[..i];
  }

  /** A loop runs to the end exactly when none of its passes aborts. */
  lemma {:induction false} SequenceCompleted(runs: seq<Run>)
    ensures Sequence(runs).outcome.Completed? <==> forall i :: 0 <= i < |runs| ==> runs[i].outcome.Completed?
  {
    if runs != [] {
      var n := |runs| - 1;
      SequenceCompleted(runs[..n]);
      assert forall i :: 0 <= i < n ==> runs[..n][i] == runs[i];
    }
  }

  /** Once a pass aborts, the later passes are never run. */
  lemma {:induction false} SequenceAbortSticky(runs: seq<Run>, k: nat)
    requires k <= |runs| && Sequence(runs[..k]).outcome.Aborted?
    ensures Sequence(runs) == Sequence(runs[..k])
    decreases |runs| - k
  {
    if k < |runs| {
      var n := |runs| - 1;
      assert runs[..n][..k] == runs[..k];
      SequenceAbortSticky(runs[..n], k);
    } else {
      assert runs[..k] == runs;
    }
  }

  /** A loop whose passes each complete with exactly one effect has one effect per pass, in
      order. */
  lemma {:induction false} SequenceOfSingles(runs: seq<Run>)
    requires forall i :: 0 <= i < |runs| ==> runs[i].outcome.Completed? && |runs[i].effects| == 1
    ensures Sequence(runs).outcome.Completed?
    ensures |Sequence(runs).effects| == |runs|
    ensures forall i :: 0 <= i < |runs| ==> Sequence(runs).effects[i] == runs[i].effects[0]
  {
    if runs != [] {
      var n := |runs| - 1;
      SequenceOfSingles(runs[..n]);
      assert forall i :: 0 <= i < n ==> runs[..n][i] == runs[i];
    }
  }

  /** Running two lists of passes one after the other is running their concatenation. */
  lemma {:induction false} SequenceAppend(a: seq<Run>, b: seq<Run>)
    ensures Sequence(a + b) == Then(Sequence(a), Sequence(b))
  {
    if b == [] {
      assert a + b == a;
    } else {
      var n := |b| - 1;
      assert (a + b)[..|a + b| - 1] == a + b[..n];
      SequenceAppend(a, b[..n]);
      ThenAssoc(Sequence(a), Sequence(b[..n]), b[n]);
    }
  }

  /** Every effect of a loop comes from one of its passes. */
  lemma {:induction false} SequenceEffectFrom(runs: seq<Run>, e: Effect)
    requires e in Sequence(runs).effects
    ensures exists i :: 0 <= i < |runs| && e in runs[i].effects
  {
    var n := |runs| - 1;
    var init := Sequence(runs[..n]);
    if e in init.effects {
      SequenceEffectFrom(runs[..n], e);
      var i :| 0 <= i < n && e in runs[..n][i].effects;
      assert runs[..n][i] == runs[i];
    } else {
      assert e in runs[n].effects;
    }
  }
}
