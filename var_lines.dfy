/** The `"  key: value"` lines that both the request renderer (headers) and the environment
    renderer (variables) produce by ranging over a Go map. Go ranges over a map in an order
    the runtime picks afresh each time, so the model takes that order as an input, `visit`,
    and states what does not depend on it: the multiset of lines. */
module VarLines {

  /** One rendered entry: two spaces, the key, a colon and a space, the value. */
  function VarLine(key: string, value: string): string
  {
    "  " + key + ": " + value
  }

  /** `visit` lists every key of the map exactly once: an order Go's range may produce. */
  ghost predicate IsEnumeration(visit: seq<string>, keys: set<string>)
  {
    && (forall i, j :: 0 <= i < j < |visit| ==> visit[i] != visit[j])
    && (forall k :: k in visit <==> k in keys)
  }

  /** The order in which Go's runtime ranges over a string map: an input of the model. */
  type Order = map<string, string> -> seq<string>

  /** Every order the model is given visits each key of every map exactly once. */
  ghost predicate ValidOrder(order: Order)
  {
    forall m: map<string, string> :: IsEnumeration(order(m), m.Keys)
  }

  /** The lines appended while ranging over `m` in the order `visit`. */
  function Lines(visit: seq<string>, m: map<string, string>): seq<string>
  {
    if visit == [] then []
    else
      var k := visit[|visit| - 1];
      Lines(visit[..|visit| - 1], m) + (if k in m then [VarLine(k, m[k])] else [])
  }

  /** Some key of a non-empty map; which one is left unspecified. */
  ghost function Pick(m: map<string, string>): (k: string)
    requires m != map[]
    ensures k in m
  {
    var k :| k in m; k
  }

  /** The order-free meaning of the rendered lines: one line per entry of the map. */
  ghost function LineBag(m: map<string, string>): multiset<string>
  {
    if m == map[] then multiset{}
    else
      var k := Pick(m);
      multiset{VarLine(k, m[k])} + LineBag(m - {k})
  }

  /** `LineBag` may take its entries out in any order. */
  lemma {:induction false} LineBagPick(m: map<string, string>, k: string)
    requires k in m
    ensures LineBag(m) == multiset{VarLine(k, m[k])} + LineBag(m - {k})
    decreases m
  {
    var j := Pick(m);
    if j != k {
      var mj, mk := m - {j}, m - {k};
      var lj, lk := VarLine(j, m[j]), VarLine(k, m[k]);
      var rest := mj - {k};
      assert rest == mk - {j};
      assert LineBag(m) == multiset{lj} + LineBag(mj);
      assert LineBag(mj) == multiset{lk} + LineBag(rest) by {
        assert mj.Keys < m.Keys;
        assert k in mj && mj[k] == m[k];
        LineBagPick(mj, k);
      }
      assert LineBag(mk) == multiset{lj} + LineBag(rest) by {
        assert mk.Keys < m.Keys;
        assert j in mk && mk[j] == m[j];
        LineBagPick(mk, j);
      }
    }
  }

  /** A line is in `LineBag(m)` exactly when it renders some entry of `m`, and there are as
      many lines as entries. */
  lemma {:induction false} LineBagEntries(m: map<string, string>)
    ensures |LineBag(m)| == |m|
    ensures forall l :: l in LineBag(m) <==> exists k :: k in m && l == VarLine(k, m[k])
    decreases |m|
  {
    if m != map[] {
      var k :| k in m;
      LineBagPick(m, k);
      var rest := m - {k};
      assert |rest| == |m| - 1 by { assert rest.Keys == m.Keys - {k}; }
      LineBagEntries(rest);
      forall l | l in LineBag(m)
        ensures exists k' :: k' in m && l == VarLine(k', m[k'])
      {
        if l != VarLine(k, m[k]) {
          var k' :| k' in rest && l == VarLine(k', rest[k']);
          assert k' in m && m[k'] == rest[k'];
        }
      }
      forall l | exists k' :: k' in m && l == VarLine(k', m[k'])
        ensures l in LineBag(m)
      {
        var k' :| k' in m && l == VarLine(k', m[k']);
        if k' != k {
          assert k' in rest && l == VarLine(k', rest[k']);
        }
      }
    } else {
      assert forall l :: l !in LineBag(m);
    }
  }

  /** `Lines` reads the map only at the keys it visits. */
  lemma {:induction false} LinesFrame(visit: seq<string>, m: map<string, string>, m': map<string, string>)
    requires forall k :: k in visit ==> (k in m <==> k in m') && (k in m ==> m[k] == m'[k])
    ensures Lines(visit, m) == Lines(visit, m')
  {
    if visit != [] {
      LinesFrame(visit[..|visit| - 1], m, m');
    }
  }

  /** Whatever order the range takes, the lines are exactly one per entry. */
  lemma {:induction false} LinesAreLineBag(visit: seq<string>, m: map<string, string>)
    requires IsEnumeration(visit, m.Keys)
    ensures multiset(Lines(visit, m)) == LineBag(m)
    ensures |Lines(visit, m)| == |m|
  {
    if visit == [] {
      assert m.Keys == {};
      assert m == map[];
    } else {
      var init, k := visit[..|visit| - 1], visit[|visit| - 1];
      var rest := m - {k};
      assert visit == init + [k];
      assert k !in init by {
        forall i | 0 <= i < |init| ensures init[i] != k {
          assert init[i] == visit[i];
        }
      }
      assert IsEnumeration(init, rest.Keys) by {
        forall i, j | 0 <= i < j < |init| ensures init[i] != init[j] {
          assert init[i] == visit[i] && init[j] == visit[j];
        }
        forall k' ensures k' in init <==> k' in rest.Keys {
          assert k' in init ==> k' in visit;
          assert k' in visit && k' != k ==> k' in init;
        }
      }
      LinesFrame(init, m, rest);
      LinesAreLineBag(init, rest);
      LineBagPick(m, k);
      assert |rest| == |m| - 1 by { assert rest.Keys == m.Keys - {k}; }
    }
  }

  /** Whatever order the range takes, a line is rendered exactly when it renders an entry. */
  lemma LinesCoverEntries(visit: seq<string>, m: map<string, string>)
    requires IsEnumeration(visit, m.Keys)
    ensures forall l :: l in Lines(visit, m) <==> exists k :: k in m && l == VarLine(k, m[k])
  {
    LinesAreLineBag(visit, m);
    LineBagEntries(m);
    forall l ensures l in Lines(visit, m) <==> l in LineBag(m) {
      assert l in Lines(visit, m) <==> l in multiset(Lines(visit, m));
    }
  }

  /** The range order changes only the order of the lines, never which lines there are. */
  lemma LinesOrderIndependent(v1: seq<string>, v2: seq<string>, m: map<string, string>)
    requires IsEnumeration(v1, m.Keys) && IsEnumeration(v2, m.Keys)
    ensures multiset(Lines(v1, m)) == multiset(Lines(v2, m))
  {
    LinesAreLineBag(v1, m);
    LinesAreLineBag(v2, m);
  }

  /** The loop `for key, value := range m { vars = append(vars, "  "+key+": "+value) }`,
      ranging over `m` in the order `visit`. */
  method RenderVarLines(m: map<string, string>, visit: seq<string>) returns (vars: seq<string>)
    requires IsEnumeration(visit, m.Keys)
    ensures vars == Lines(visit, m)
    ensures multiset(vars) == LineBag(m) && |vars| == |m|
  {
    vars := [];
    for i := 0 to |visit|
      invariant vars == Lines(visit[..i], m)
    {
      var key := visit[i];
      assert visit[..i + 1][..i] == visit[..i];
      vars := vars + [VarLine(key, m[key])];
    }
    assert visit[..|visit|] == visit;
    LinesAreLineBag(visit, m);
  }
}
