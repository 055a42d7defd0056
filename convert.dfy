/** The conversion as main runs it once the export file is decoded: `bruno.json`, then the
    environments, then the collection tree, all under the output directory. */
module Convert {
  import opened Yaml
  import opened Text
  import opened Plan
  import opened VarLines
  import opened Environment
  import opened Collection

  const BrunoJsonHead := "{\n  \"version\": \"1\",\n  \"name\": \""
  const BrunoJsonTail := "\",\n  \"type\": \"collection\",\n  \"ignore\": [\n    \"node_modules\",\n    \".git\"\n  ]\n}"

  function BrunoJsonPath(dir: string): string
  {
    dir + "/bruno.json"
  }

  /** The collection manifest: a fixed template with the collection name spliced in as it is,
      without any JSON escaping. */
  function BrunoJson(name: string): (content: string)
    ensures HasPrefix(content, BrunoJsonHead) && HasSuffix(content, BrunoJsonTail)
    ensures |content| == |BrunoJsonHead| + |name| + |BrunoJsonTail|
  {
    var content := BrunoJsonHead + name + BrunoJsonTail;
    assert content[..|BrunoJsonHead|] == BrunoJsonHead;
    assert content[|content| - |BrunoJsonTail|..] == BrunoJsonTail;
    content
  }

  /** The name stands verbatim between the template's two halves, so it can be read back and
      two names never give the same manifest. */
  lemma BrunoJsonEmbedsName(name: string, other: string)
    ensures var content := BrunoJson(name);
            content[|BrunoJsonHead|..|content| - |BrunoJsonTail|] == name
    ensures BrunoJson(name) == BrunoJson(other) ==> name == other
  {
    var content, content' := BrunoJson(name), BrunoJson(other);
    assert content[|BrunoJsonHead|..|content| - |BrunoJsonTail|] == name;
    assert content'[|BrunoJsonHead|..|content'| - |BrunoJsonTail|] == other;
  }

  /** createBrunoJsonFile: a single file write, which cannot panic. */
  function BrunoJsonRun(dir: string, name: string): (r: Run)
    ensures r.outcome.Completed? && |r.effects| == 1 && r.effects[0].WriteFile?
    ensures r.effects[0].path == dir + "/bruno.json"
    ensures HasPrefix(r.effects[0].content, BrunoJsonHead + name)
  {
    assert BrunoJson(name)[..|BrunoJsonHead + name|] == BrunoJsonHead + name;
    Run([WriteFile(BrunoJsonPath(dir), BrunoJson(name))], Completed)
  }

  /** The run's own use of the decoded document's `collection` entry, which must be a list. */
  function CollectionRun(dir: string, data: Node, order: Order): Run
  {
    var collection := Get(data, "collection");
    if collection.Seq? then WalkItems(dir, collection.items, order)
    else Run([], Aborted("collection is not a sequence"))
  }

  /** main after decoding: a document that is not a mapping (nor empty) stops the program before
      anything is written; otherwise the manifest, the environments and the collection tree, in
      that order, each stopping the run if it panics. */
  function Conversion(dir: string, name: string, data: Node, order: Order): (r: Run)
    ensures !data.Map? && !data.Null? ==> r.effects == [] && r.outcome.Aborted?
    ensures data.Map? || data.Null? ==> |r.effects| >= 1 && r.effects[0] == BrunoJsonRun(dir, name).effects[0]
  {
    if !data.Map? && !data.Null? then Run([], Aborted("document is not a mapping"))
    else Then(BrunoJsonRun(dir, name), Then(EnvironmentRun(dir, data, order), CollectionRun(dir, data, order)))
  }

  /** The whole input shape under which the conversion runs to the end. */
  predicate WellFormedDocument(data: Node)
  {
    && (data.Map? || data.Null?)
    && WellFormedEnvironments(data)
    && Get(data, "collection").Seq?
    && WellFormedItems(Get(data, "collection").items)
  }

  /** The conversion runs to the end exactly when the document is well formed; it then starts
      with the manifest and the environments directory. An empty document still gets its
      manifest and environments directory before the missing collection stops it. */
  lemma ConversionCompleted(dir: string, name: string, data: Node, order: Order)
    ensures var r := Conversion(dir, name, data, order);
            r.outcome.Completed? <==> WellFormedDocument(data)
    ensures var r := Conversion(dir, name, data, order);
            (data.Map? || data.Null?) ==>
              && |r.effects| >= 2
              && r.effects[0] == WriteFile(dir + "/bruno.json", BrunoJson(name))
              && r.effects[1] == MakeDir(dir + "/environments")
    ensures data.Null? ==>
              Conversion(dir, name, data, order) ==
                Run([WriteFile(dir + "/bruno.json", BrunoJson(name)), MakeDir(dir + "/environments")],
                    Aborted("collection is not a sequence"))
  {
    EnvironmentRunCompleted(dir, data, order);
    var collection := Get(data, "collection");
    if collection.Seq? {
      WalkItemsCompleted(dir, collection.items, order);
    }
  }

  /** Every directory the conversion creates and every file it writes lies inside the output
      directory, and every logged error is an unsupported collection item. */
  lemma ConversionStaysInside(dir: string, name: string, data: Node, order: Order)
    ensures forall e :: e in Conversion(dir, name, data, order).effects ==>
              if e.LogError? then e.context == "createCollectionFile"
              else HasPrefix(e.path, dir + "/")
  {
    var r := Conversion(dir, name, data, order);
    var env := EnvironmentRun(dir, data, order);
    var rest := CollectionRun(dir, data, order);
    EnvironmentRunEffects(dir, data, order);
    var collection := Get(data, "collection");
    if collection.Seq? {
      WalkItemsEffects(dir, collection.items, order);
    }
    forall e | e in r.effects
      ensures if e.LogError? then e.context == "createCollectionFile" else HasPrefix(e.path, dir + "/")
    {
      if e in env.effects {
        assert HasPrefix(EnvironmentsDir(dir), dir + "/") by {
          assert EnvironmentsDir(dir)[..|dir + "/"|] == dir + "/";
        }
        if e.WriteFile? {
          HasPrefixAppend(EnvironmentsDir(dir), "/", dir + "/");
          HasPrefixTransitive(e.path, EnvironmentsDir(dir) + "/", dir + "/");
        }
      } else if e in rest.effects {
        assert WalkEffect(e, dir);
      } else {
        assert BrunoJsonPath(dir)[..|dir + "/"|] == dir + "/";
      }
    }
  }

  /** main's three calls, once the export file is decoded. */
  method RunConversion(dir: string, name: string, data: Node, order: Order) returns (run: Run)
    requires ValidOrder(order)
    ensures run == Conversion(dir, name, data, order)
  {
    if !data.Map? && !data.Null? {
      return Run([], Aborted("document is not a mapping"));
    }
    var manifest := WriteFile(BrunoJsonPath(dir), BrunoJson(name));
    var environments := CreateEnvironmentFile(dir, data, order);
    if environments.outcome.Aborted? {
      return Run([manifest] + environments.effects, environments.outcome);
    }
    var collection := Get(data, "collection");
    var tree: Run;
    if collection.Seq? {
      tree := CreateCollectionFile(dir, collection.items, order);
    } else {
      tree := Run([], Aborted("collection is not a sequence"));
    }
    assert tree == CollectionRun(dir, data, order);
    return Run([manifest] + (environments.effects + tree.effects), tree.outcome);
  }
}
