/** createEnvironmentFile: one `vars { ... }` file under `<output>/environments/` per entry of
    the document's `environments.subEnvironments` list. */
module Environment {
  import opened Yaml
  import opened Text
  import opened Plan
  import opened VarLines

  /** A variables mapping whose keys and values are all strings, as a string map; `None` when
      some key or value would fail its `.(string)` assertion. */
  function StringMap(entries: map<Node, Node>): (r: Option<map<string, string>>)
    ensures r.Some? <==> forall k :: k in entries ==> k.Str? && entries[k].Str?
    ensures r.Some? ==> forall s :: s in r.value <==> Str(s) in entries
    ensures r.Some? ==> forall s :: s in r.value ==> r.value[s] == entries[Str(s)].s
  {
    if forall k :: k in entries ==> k.Str? && entries[k].Str? then
      Some(map k | k in entries :: k.s := entries[k].s)
    else None
  }

  function EnvironmentsDir(dir: string): string
  {
    dir + "/environments"
  }

  /** Where the sub-environment called `name` is written. */
  function EnvironmentPath(dir: string, name: string): (path: string)
    ensures HasPrefix(path, EnvironmentsDir(dir) + "/") && HasSuffix(path, ".bru")
    ensures |path| == |EnvironmentsDir(dir) + "/"| + |name| + 4
    ensures path[|EnvironmentsDir(dir) + "/"|..|path| - 4] == name
  {
    var path := EnvironmentsDir(dir) + "/" + name + ".bru";
    assert path[..|EnvironmentsDir(dir) + "/"|] == EnvironmentsDir(dir) + "/";
    assert path[|path| - 4..] == ".bru";
    path
  }

  /** The file body: the variable lines, in range order, between `vars {` and `}`. */
  function VarsContent(vars: map<string, string>, visit: seq<string>): (content: string)
    ensures HasPrefix(content, "vars {\n") && HasSuffix(content, "\n}")
  {
    var content := "vars {\n" + Join(Lines(visit, vars), "\n") + "\n}";
    assert content[..7] == "vars {\n";
    assert content[|content| - 2..] == "\n}";
    content
  }

  /** The shape every sub-environment must have for the loop to get past it: a mapping with a
      string `name` and a `data` mapping whose keys and values are all strings. */
  predicate WellFormedEnvironment(sub: Node)
  {
    && sub.Map?
    && Get(sub, "name").Str?
    && Get(sub, "data").Map?
    && StringMap(Get(sub, "data").entries).Some?
  }

  /** The file one sub-environment yields, or the failed type assertion that stops the run. */
  function EnvironmentFile(dir: string, sub: Node, order: Order): (r: Result<Effect>)
    ensures r.Ok? <==> WellFormedEnvironment(sub)
    ensures r.Ok? ==> r.value.WriteFile? && r.value.path == EnvironmentPath(dir, Get(sub, "name").s)
  {
    if !sub.Map? then Fail("sub-environment is not a mapping")
    else
      var name, data := Get(sub, "name"), Get(sub, "data");
      if !name.Str? then Fail("sub-environment name is not a string")
      else if !data.Map? then Fail("sub-environment data is not a mapping")
      else match StringMap(data.entries)
      case None => Fail("environment variable is not a string")
      case Some(vars) => Ok(WriteFile(EnvironmentPath(dir, name.s), VarsContent(vars, order(vars))))
  }

  /** One pass of the loop: the sub-environment's file, or the panic. */
  function SubEnvironmentRun(dir: string, sub: Node, order: Order): (r: Run)
    ensures r.outcome.Completed? <==> WellFormedEnvironment(sub)
    ensures r.outcome.Completed? ==> |r.effects| == 1
  {
    match EnvironmentFile(dir, sub, order)
    case Ok(file) => Run([file], Completed)
    case Fail(cause) => Run([], Aborted(cause))
  }

  /** The passes of the loop over `subs`, one per sub-environment. */
  function SubEnvironmentRuns(dir: string, subs: seq<Node>, order: Order): (runs: seq<Run>)
    ensures |runs| == |subs|
    ensures forall i :: 0 <= i < |subs| ==> runs[i] == SubEnvironmentRun(dir, subs[i], order)
  {
    seq(|subs|, i requires 0 <= i < |subs| => SubEnvironmentRun(dir, subs[i], order))
  }

  /** createEnvironmentFile on the decoded document `data`: the environments directory is
      created first; a missing `environments` or `subEnvironments` ends the step without
      files and without error. */
  function EnvironmentRun(dir: string, data: Node, order: Order): (r: Run)
    ensures |r.effects| > 0 && r.effects[0] == MakeDir(EnvironmentsDir(dir))
    ensures Get(data, "environments").Null? ==> r == Run([MakeDir(EnvironmentsDir(dir))], Completed)
    ensures Get(data, "environments").Map? && Get(Get(data, "environments"), "subEnvironments").Null? ==>
              r == Run([MakeDir(EnvironmentsDir(dir))], Completed)
  {
    var mkdir := Run([MakeDir(EnvironmentsDir(dir))], Completed);
    var environments := Get(data, "environments");
    if environments.Null? then mkdir
    else if !environments.Map? then Then(mkdir, Run([], Aborted("environments is not a mapping")))
    else
      var subs := Get(environments, "subEnvironments");
      if subs.Null? then mkdir
      else if !subs.Seq? then Then(mkdir, Run([], Aborted("subEnvironments is not a sequence")))
      else Then(mkdir, Sequence(SubEnvironmentRuns(dir, subs.items, order)))
  }

  /** The loop over the sub-environments runs to the end exactly when every one of them is well
      formed, and then it has written one file per sub-environment, in list order, at
      `environments/<name>.bru`. */
  lemma EnvironmentFilesOnePerEntry(dir: string, subs: seq<Node>, order: Order)
    ensures var r := Sequence(SubEnvironmentRuns(dir, subs, order));
            r.outcome.Completed? <==> forall i :: 0 <= i < |subs| ==> WellFormedEnvironment(subs[i])
    ensures var r := Sequence(SubEnvironmentRuns(dir, subs, order));
            r.outcome.Completed? ==>
              && |r.effects| == |subs|
              && forall i :: 0 <= i < |subs| ==>
                   && Get(subs[i], "name").Str?
                   && r.effects[i].WriteFile?
                   && r.effects[i].path == EnvironmentPath(dir, Get(subs[i], "name").s)
    ensures var r := Sequence(SubEnvironmentRuns(dir, subs, order));
            r.outcome.Completed? ==>
              forall i :: 0 <= i < |subs| ==>
                WellFormedEnvironment(subs[i]) && r.effects[i] == EnvironmentFile(dir, subs[i], order).value
  {
    var runs := SubEnvironmentRuns(dir, subs, order);
    SequenceCompleted(runs);
    if Sequence(runs).outcome.Completed? {
      SequenceOfSingles(runs);
      forall i | 0 <= i < |subs|
        ensures Sequence(runs).effects[i] == EnvironmentFile(dir, subs[i], order).value
      {
        assert runs[i] == SubEnvironmentRun(dir, subs[i], order);
      }
    }
  }

  /** The shape of the document's `environments` entry that lets createEnvironmentFile run to
      the end: absent, or a mapping whose `subEnvironments` is absent or a sequence of
      well-formed sub-environments. */
  predicate WellFormedEnvironments(data: Node)
  {
    var environments := Get(data, "environments");
    var subs := Get(environments, "subEnvironments");
    || environments.Null?
    || (environments.Map? &&
        (subs.Null? || (subs.Seq? && forall i :: 0 <= i < |subs.items| ==> WellFormedEnvironment(subs.items[i]))))
  }

  /** createEnvironmentFile returns normally exactly when the document's environments are well
      formed. */
  lemma EnvironmentRunCompleted(dir: string, data: Node, order: Order)
    ensures EnvironmentRun(dir, data, order).outcome.Completed? <==> WellFormedEnvironments(data)
  {
    var environments := Get(data, "environments");
    var subs := Get(environments, "subEnvironments");
    if environments.Map? && subs.Seq? {
      EnvironmentFilesOnePerEntry(dir, subs.items, order);
    }
  }

  /** The file of a sub-environment lies inside `environments/`. */
  lemma SubEnvironmentEffect(dir: string, sub: Node, order: Order, e: Effect)
    requires e in SubEnvironmentRun(dir, sub, order).effects
    ensures e.WriteFile? && HasPrefix(e.path, EnvironmentsDir(dir) + "/")
  {
    var path := EnvironmentPath(dir, Get(sub, "name").s);
    assert e.path == path;
    assert path[..|EnvironmentsDir(dir) + "/"|] == EnvironmentsDir(dir) + "/";
  }

  /** All createEnvironmentFile does is create `environments/` and write files inside it. */
  lemma EnvironmentRunEffects(dir: string, data: Node, order: Order)
    ensures forall e :: e in EnvironmentRun(dir, data, order).effects ==>
              e == MakeDir(EnvironmentsDir(dir)) ||
              (e.WriteFile? && HasPrefix(e.path, EnvironmentsDir(dir) + "/"))
  {
    var environments := Get(data, "environments");
    var subs := Get(environments, "subEnvironments");
    if environments.Map? && subs.Seq? {
      var runs := SubEnvironmentRuns(dir, subs.items, order);
      forall e | e in Sequence(runs).effects
        ensures e.WriteFile? && HasPrefix(e.path, EnvironmentsDir(dir) + "/")
      {
        SequenceEffectFrom(runs, e);
        var i :| 0 <= i < |runs| && e in runs[i].effects;
        SubEnvironmentEffect(dir, subs.items[i], order, e);
      }
    }
  }

  /** A sub-environment's file holds exactly one `"  key: value"` line per variable, whatever
      order the range takes. */
  lemma EnvironmentFileLines(dir: string, sub: Node, order: Order)
    requires ValidOrder(order)
    requires WellFormedEnvironment(sub)
    ensures var vars := StringMap(Get(sub, "data").entries).value;
            var lines := Lines(order(vars), vars);
            && EnvironmentFile(dir, sub, order).value.content == "vars {\n" + Join(lines, "\n") + "\n}"
            && multiset(lines) == LineBag(vars)
            && |lines| == |Get(sub, "data").entries|
            && forall key, value :: Str(key) in Get(sub, "data").entries && Get(sub, "data").entries[Str(key)] == Str(value)
                 ==> VarLine(key, value) in lines
  {
    var entries := Get(sub, "data").entries;
    var vars := StringMap(entries).value;
    var lines := Lines(order(vars), vars);
    assert multiset(lines) == LineBag(vars) && |lines| == |vars| by {
      LinesAreLineBag(order(vars), vars);
    }
    assert |vars| == |entries| by {
      StringMapSize(entries);
    }
    forall key, value | Str(key) in entries && entries[Str(key)] == Str(value)
      ensures VarLine(key, value) in lines
    {
      assert key in vars && vars[key] == value;
      LinesCoverEntries(order(vars), vars);
    }
  }

  /** Converting the variables keeps their number. */
  lemma StringMapSize(entries: map<Node, Node>)
    requires StringMap(entries).Some?
    ensures |StringMap(entries).value| == |entries|
  {
    var vars := StringMap(entries).value;
    assert entries.Keys == set s | s in vars.Keys :: Str(s);
    SizeOfInjectiveImage(vars.Keys);
  }

  /** Tagging strings as `Str` keeps the number of them. */
  lemma {:induction false} SizeOfInjectiveImage(keys: set<string>)
    ensures |set s | s in keys :: Str(s)| == |keys|
    decreases |keys|
  {
    if keys != {} {
      var k :| k in keys;
      SizeOfInjectiveImage(keys - {k});
      assert (set s | s in keys :: Str(s)) == (set s | s in keys - {k} :: Str(s)) + {Str(k)};
    }
  }

  /** createEnvironmentFile, up to its loop over the sub-environments. */
  method CreateEnvironmentFile(dir: string, data: Node, order: Order) returns (run: Run)
    requires ValidOrder(order)
    ensures run == EnvironmentRun(dir, data, order)
  {
    var effects := [MakeDir(EnvironmentsDir(dir))];
    var environments := Get(data, "environments");
    if environments.Null? {
      return Run(effects, Completed);
    }
    if !environments.Map? {
      return Run(effects, Aborted("environments is not a mapping"));
    }
    var subEnvironments := Get(environments, "subEnvironments");
    if subEnvironments.Null? {
      return Run(effects, Completed);
    }
    if !subEnvironments.Seq? {
      return Run(effects, Aborted("subEnvironments is not a sequence"));
    }
    var files := CreateSubEnvironmentFiles(dir, subEnvironments.items, order);
    return Run(effects + files.effects, files.outcome);
  }

  /** The loop of createEnvironmentFile: one file per sub-environment, until a type assertion
      fails. */
  method CreateSubEnvironmentFiles(dir: string, subs: seq<Node>, order: Order) returns (run: Run)
    requires ValidOrder(order)
    ensures run == Sequence(SubEnvironmentRuns(dir, subs, order))
  {
    var effects: seq<Effect> := [];
    ghost var runs := SubEnvironmentRuns(dir, subs, order);
    for i := 0 to |subs|
      invariant Sequence(runs[..i]).outcome.Completed?
      invariant effects == Sequence(runs[..i]).effects
    {
      SequenceStep(runs, i);
      var sub := subs[i];
      if !sub.Map? {
        SequenceAbortSticky(runs, i + 1);
        return Run(effects, Aborted("sub-environment is not a mapping"));
      }
      var name := Get(sub, "name");
      if !name.Str? {
        SequenceAbortSticky(runs, i + 1);
        return Run(effects, Aborted("sub-environment name is not a string"));
      }
      var values := Get(sub, "data");
      if !values.Map? {
        SequenceAbortSticky(runs, i + 1);
        return Run(effects, Aborted("sub-environment data is not a mapping"));
      }
      var vars := StringMap(values.entries);
      if vars.None? {
        SequenceAbortSticky(runs, i + 1);
        return Run(effects, Aborted("environment variable is not a string"));
      }
      var envVars := RenderVarLines(vars.value, order(vars.value));
      var envContent := Join(envVars, "\n");
      var file := WriteFile(EnvironmentPath(dir, name.s), "vars {\n" + envContent + "\n}");
      assert SubEnvironmentRun(dir, sub, order) == Run([file], Completed);
      effects := effects + [file];
    }
    assert runs[..|subs|] == runs;
    return Run(effects, Completed);
  }
}
