/** createCollectionFile: the depth-first walk over the `collection` list. Each item is a
    folder (`meta.id` starting with "fld_": a directory named after it, then its children
    inside that directory), a request ("req_": one `.bru` file in the current directory) or
    anything else, which is logged as unsupported and skipped. */
module Collection {
  import opened Yaml
  import opened Text
  import opened Plan
  import opened VarLines
  import opened Request

  datatype Kind = Folder | RequestItem | Unsupported

  /** The prefix test on `meta.id`; "fld_" is tested first. */
  function KindOf(id: string): (k: Kind)
    ensures k == Folder <==> HasPrefix(id, "fld_")
    ensures k == RequestItem <==> HasPrefix(id, "req_")
    ensures k == Unsupported <==> !HasPrefix(id, "fld_") && !HasPrefix(id, "req_")
  {
    if HasPrefix(id, "fld_") then
      assert id[0] == 'f';
      Folder
    else if HasPrefix(id, "req_") then RequestItem
    else Unsupported
  }

  const ErrorContext := "createCollectionFile"

  function UnsupportedMessage(id: string): string
  {
    "Unsupported item type: " + id
  }

  /** The directory a folder item creates: the output directory, "/", and the item name as it
      is, "/" characters included. */
  function FolderPath(dir: string, name: string): (p: string)
    ensures HasPrefix(p, dir + "/")
  {
    var p := dir + "/" + name;
    assert p[..|dir + "/"|] == dir + "/";
    p
  }

  /** The header every item must have before it is dispatched: a mapping with a string `name`
      and a `meta` mapping holding a string `id`. */
  predicate HasHeader(item: Node)
  {
    && item.Map?
    && Get(item, "name").Str?
    && Get(item, "meta").Map?
    && Get(Get(item, "meta"), "id").Str?
  }

  /** What one item does, given the directory the walk is in. */
  function WalkItem(dir: string, item: Node, order: Order): (r: Run)
    ensures !HasHeader(item) ==> r.effects == [] && r.outcome.Aborted?
    ensures r.outcome.Completed? ==> |r.effects| >= 1
    decreases item
  {
    if !item.Map? then Run([], Aborted("collection item is not a mapping"))
    else
      var name, meta := Get(item, "name"), Get(item, "meta");
      if !name.Str? then Run([], Aborted("item name is not a string"))
      else if !meta.Map? then Run([], Aborted("item meta is not a mapping"))
      else
        var id := Get(meta, "id");
        if !id.Str? then Run([], Aborted("item meta.id is not a string"))
        else match KindOf(id.s)
        case Folder =>
          var folder := FolderPath(dir, name.s);
          var children := Get(item, "children");
          if !children.Seq? then Run([MakeDir(folder)], Aborted("children is not a sequence"))
          else Then(Run([MakeDir(folder)], Completed), WalkItems(folder, children.items, order))
        case RequestItem =>
          (match RequestFile(dir, item, name.s, id.s, order)
           case Ok(file) => Run([file], Completed)
           case Fail(cause) => Run([], Aborted(cause)))
        case Unsupported =>
          Run([LogError(ErrorContext, UnsupportedMessage(id.s))], Completed)
  }

  /** The passes of the loop over `items`, one per item. */
  function ItemRuns(dir: string, items: seq<Node>, order: Order): (runs: seq<Run>)
    ensures |runs| == |items|
    ensures forall i :: 0 <= i < |items| ==> runs[i] == WalkItem(dir, items[i], order)
    decreases items, 0
  {
    seq(|items|, i requires 0 <= i < |items| => WalkItem(dir, items[i], order))
  }

  /** createCollectionFile(dir, items): the items one after the other, until one panics. */
  function WalkItems(dir: string, items: seq<Node>, order: Order): (r: Run)
    ensures items == [] ==> r == Done
    ensures r.outcome.Completed? <==>
              forall i :: 0 <= i < |items| ==> WalkItem(dir, items[i], order).outcome.Completed?
    decreases items, 1
  {
    var runs := ItemRuns(dir, items, order);
    SequenceCompleted(runs);
    Sequence(runs)
  }

  /** The shape every item of the tree must have for the walk to get through it: a header;
      for a folder, a `children` sequence of well-formed items; for a request, the fields
      createRequestFile asserts. Unsupported items need nothing more. */
  predicate WellFormedItem(item: Node)
    decreases item
  {
    && HasHeader(item)
    && match KindOf(Get(Get(item, "meta"), "id").s)
       case Folder =>
         Get(item, "children").Seq? && WellFormedItems(Get(item, "children").items)
       case RequestItem => WellFormedRequest(item)
       case Unsupported => true
  }

  predicate WellFormedItems(items: seq<Node>)
    decreases items
  {
    forall i :: 0 <= i < |items| ==> WellFormedItem(items[i])
  }

  /** The walk of one item runs to the end exactly when the item's subtree is well formed. */
  lemma {:induction false} WalkItemCompleted(dir: string, item: Node, order: Order)
    ensures WalkItem(dir, item, order).outcome.Completed? <==> WellFormedItem(item)
    decreases item
  {
    if HasHeader(item) {
      var name, id := Get(item, "name").s, Get(Get(item, "meta"), "id").s;
      var children := Get(item, "children");
      if KindOf(id) == Folder && children.Seq? {
        WalkItemsCompleted(FolderPath(dir, name), children.items, order);
      }
    }
  }

  /** The walk of a list runs to the end, with no panic, exactly when every item's subtree is
      well formed; unsupported items never stop it. */
  lemma {:induction false} WalkItemsCompleted(dir: string, items: seq<Node>, order: Order)
    ensures WalkItems(dir, items, order).outcome.Completed? <==> WellFormedItems(items)
    decreases items
  {
    var runs := ItemRuns(dir, items, order);
    SequenceCompleted(runs);
    forall i | 0 <= i < |items|
      ensures runs[i].outcome.Completed? <==> WellFormedItem(items[i])
    {
      WalkItemCompleted(dir, items[i], order);
    }
  }

  /** What the walk may do from directory `dir`: create a directory under `dir/`, write a
      `.bru` file under `dir/`, or log an unsupported item. */
  predicate WalkEffect(e: Effect, dir: string)
  {
    match e
    case MakeDir(path) => HasPrefix(path, dir + "/")
    case WriteFile(path, _) => HasPrefix(path, dir + "/") && HasSuffix(path, ".bru")
    case LogError(context, message) =>
      context == ErrorContext && HasPrefix(message, "Unsupported item type: ")
  }

  /** An effect allowed below `dir + "/" + name` is allowed below `dir`. */
  lemma WalkEffectWidens(e: Effect, dir: string, name: string)
    requires WalkEffect(e, FolderPath(dir, name))
    ensures WalkEffect(e, dir)
  {
    var folder := FolderPath(dir, name);
    HasPrefixAppend(folder, "/", dir + "/");
    if e.MakeDir? || e.WriteFile? {
      HasPrefixTransitive(e.path, folder + "/", dir + "/");
    }
  }

  /** Everything the walk of one item does stays inside `dir`: directories and `.bru` files
      under `dir/`, and nothing but unsupported-item errors logged. */
  lemma {:induction false} WalkItemEffects(dir: string, item: Node, order: Order)
    ensures forall e :: e in WalkItem(dir, item, order).effects ==> WalkEffect(e, dir)
    decreases item
  {
    var r := WalkItem(dir, item, order);
    if HasHeader(item) {
      var name, id := Get(item, "name").s, Get(Get(item, "meta"), "id").s;
      match KindOf(id)
      case Folder =>
        var folder := FolderPath(dir, name);
        var children := Get(item, "children");
        if children.Seq? {
          forall e | e in r.effects ensures WalkEffect(e, dir) {
            if e != MakeDir(folder) {
              assert e in WalkItems(folder, children.items, order).effects;
              WalkItemsEffects(folder, children.items, order);
              WalkEffectWidens(e, dir, name);
            }
          }
        }
      case RequestItem =>
        if r.outcome.Completed? {
          var path := dir + "/" + FileName(name, id);
          assert r.effects[0].path == path;
          assert HasPrefix(path, dir + "/") by {
            assert path[..|dir + "/"|] == dir + "/";
          }
          assert HasSuffix(path, ".bru") by {
            assert path[|path| - 4..] == FileName(name, id)[|name| + |id| + 1..];
          }
        }
      case Unsupported =>
        assert (UnsupportedMessage(id))[..23] == "Unsupported item type: ";
    }
  }

  lemma {:induction false} WalkItemsEffects(dir: string, items: seq<Node>, order: Order)
    ensures forall e :: e in WalkItems(dir, items, order).effects ==> WalkEffect(e, dir)
    decreases items
  {
    var runs := ItemRuns(dir, items, order);
    forall e | e in Sequence(runs).effects ensures WalkEffect(e, dir) {
      SequenceEffectFrom(runs, e);
      var i :| 0 <= i < |runs| && e in runs[i].effects;
      WalkItemEffects(dir, items[i], order);
    }
  }

  /** How one item is dispatched on the prefix of its id: a folder creates `dir/name` first and
      then walks its children with that directory as the root; a request writes exactly one
      file, `dir/<file name>`, in the current directory, or panics having written nothing; any
      other id logs "Unsupported item type: <id>" and completes. */
  lemma WalkItemDispatch(dir: string, item: Node, order: Order)
    requires HasHeader(item)
    ensures var name, id := Get(item, "name").s, Get(Get(item, "meta"), "id").s;
            var r := WalkItem(dir, item, order);
            var children := Get(item, "children");
            && (HasPrefix(id, "fld_") ==>
                  && r.effects[0] == MakeDir(dir + "/" + name)
                  && (children.Seq? ==>
                        r.effects[1..] == WalkItems(dir + "/" + name, children.items, order).effects
                        && r.outcome == WalkItems(dir + "/" + name, children.items, order).outcome)
                  && (!children.Seq? ==> r.effects == [MakeDir(dir + "/" + name)] && r.outcome.Aborted?))
            && (HasPrefix(id, "req_") ==>
                  && (r.outcome.Completed? <==> WellFormedRequest(item))
                  && (r.outcome.Completed? ==>
                        |r.effects| == 1 && r.effects[0].WriteFile? && r.effects[0].path == dir + "/" + FileName(name, id))
                  && (r.outcome.Aborted? ==> r.effects == []))
            && (!HasPrefix(id, "fld_") && !HasPrefix(id, "req_") ==>
                  r == Run([LogError("createCollectionFile", "Unsupported item type: " + id)], Completed))
  {
  }

  /** An unsupported item in the middle of a list is logged and the walk goes on with the items
      after it, exactly as if the item had been replaced by the log line. */
  lemma UnsupportedContinues(dir: string, items: seq<Node>, j: nat, order: Order)
    requires j < |items| && HasHeader(items[j])
    requires KindOf(Get(Get(items[j], "meta"), "id").s) == Unsupported
    ensures var logged := LogError(ErrorContext, UnsupportedMessage(Get(Get(items[j], "meta"), "id").s));
            WalkItems(dir, items, order) ==
              Then(WalkItems(dir, items[..j], order), Then(Run([logged], Completed), WalkItems(dir, items[j + 1..], order)))
  {
    var runs := ItemRuns(dir, items, order);
    var before, after := ItemRuns(dir, items[..j], order), ItemRuns(dir, items[j + 1..], order);
    assert runs == before + ([runs[j]] + after);
    SequenceAppend(before, [runs[j]] + after);
    SequenceAppend([runs[j]], after);
    assert Sequence([runs[j]]) == runs[j] by {
      assert [runs[j]][..0] == [];
    }
  }

  /** createCollectionFile: a loop over the items that recurses into each folder's children. */
  method CreateCollectionFile(dir: string, items: seq<Node>, order: Order) returns (run: Run)
    requires ValidOrder(order)
    ensures run == WalkItems(dir, items, order)
    decreases items, 1
  {
    var effects: seq<Effect> := [];
    ghost var runs := ItemRuns(dir, items, order);
    for i := 0 to |items|
      invariant Sequence(runs[..i]).outcome.Completed?
      invariant effects == Sequence(runs[..i]).effects
    {
      SequenceStep(runs, i);
      var pass := CreateItem(dir, items[i], order);
      effects := effects + pass.effects;
      if pass.outcome.Aborted? {
        SequenceAbortSticky(runs, i + 1);
        return Run(effects, pass.outcome);
      }
    }
    assert runs[..|items|] == runs;
    return Run(effects, Completed);
  }

  /** One pass of createCollectionFile's loop: the item's type assertions, then the dispatch on
      the prefix of its id. */
  method CreateItem(dir: string, item: Node, order: Order) returns (run: Run)
    requires ValidOrder(order)
    ensures run == WalkItem(dir, item, order)
    decreases item
  {
    if !item.Map? {
      return Run([], Aborted("collection item is not a mapping"));
    }
    var itemName := Get(item, "name");
    if !itemName.Str? {
      return Run([], Aborted("item name is not a string"));
    }
    var meta := Get(item, "meta");
    if !meta.Map? {
      return Run([], Aborted("item meta is not a mapping"));
    }
    var itemId := Get(meta, "id");
    if !itemId.Str? {
      return Run([], Aborted("item meta.id is not a string"));
    }
    if HasPrefix(itemId.s, "fld_") {
      var folder := dir + "/" + itemName.s;
      var children := Get(item, "children");
      if !children.Seq? {
        return Run([MakeDir(folder)], Aborted("children is not a sequence"));
      }
      var sub := CreateCollectionFile(folder, children.items, order);
      return Run([MakeDir(folder)] + sub.effects, sub.outcome);
    } else if HasPrefix(itemId.s, "req_") {
      var file := CreateRequestFile(dir, item, itemName.s, itemId.s, order);
      if file.Fail? {
        return Run([], Aborted(file.cause));
      }
      return Run([file.value], Completed);
    } else {
      return Run([LogError("createCollectionFile", "Unsupported item type: " + itemId.s)], Completed);
    }
  }
}
