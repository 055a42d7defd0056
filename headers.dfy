/** parseHeaders: the request's `headers` list turned into a mapping from lower-cased header
    name to value, dropping `User-Agent` and malformed entries; a later header with the same
    lower-cased name overwrites an earlier one. */
module Headers {
  import opened Yaml
  import opened Text

  /** The (name, value) a header entry contributes, if any: it must be a mapping whose `name`
      is a string other than exactly "User-Agent" and whose `value` is a string. */
  function Qualifying(h: Node): (r: Option<(string, string)>)
    ensures r.Some? ==> h.Map? && Get(h, "name") == Str(r.value.0) && Get(h, "value") == Str(r.value.1)
    ensures r.Some? ==> r.value.0 != "User-Agent"
    ensures r.None? ==> !h.Map? || !Get(h, "name").Str? || Get(h, "name").s == "User-Agent" || !Get(h, "value").Str?
  {
    if h.Map? && Get(h, "name").Str? && Get(h, "name").s != "User-Agent" && Get(h, "value").Str?
    then Some((Get(h, "name").s, Get(h, "value").s))
    else None
  }

  /** Header `h` writes `value` under key `k` when it is processed. */
  predicate Contributes(h: Node, k: string)
  {
    Qualifying(h).Some? && Lower(Qualifying(h).value.0) == k
  }

  /** The result map after processing the entries `hs` in order. */
  function HeaderMap(hs: seq<Node>): (m: map<string, string>)
    ensures forall k :: k in m ==> Lower(k) == k
  {
    if hs == [] then map[]
    else
      var m := HeaderMap(hs[..|hs| - 1]);
      match Qualifying(hs[|hs| - 1])
      case None => m
      case Some((name, value)) =>
        LowerIdempotent(name);
        m[Lower(name) := value]
  }

  /** What parseHeaders returns for a request mapping: the empty map when `headers` is absent
      (or null), the processed list when it is a sequence, and a failed type assertion when it
      is anything else. */
  function ParsedHeaders(item: Node): (r: Result<map<string, string>>)
    ensures Get(item, "headers").Null? ==> r == Ok(map[])
    ensures r.Ok? <==> Get(item, "headers").Null? || Get(item, "headers").Seq?
    ensures r.Ok? ==> forall k :: k in r.value ==> Lower(k) == k
  {
    var headers := Get(item, "headers");
    if headers.Null? then Ok(map[])
    else if headers.Seq? then Ok(HeaderMap(headers.items))
    else Fail("headers is not a sequence")
  }

  /** What processing the last entry does to key `k`: set it when the entry contributes `k`,
      leave it as it was otherwise. */
  lemma HeaderMapLast(hs: seq<Node>, k: string)
    requires hs != []
    ensures var n := |hs| - 1;
            var before, after := HeaderMap(hs[..n]), HeaderMap(hs);
            && (Contributes(hs[n], k) ==> k in after && after[k] == Qualifying(hs[n]).value.1)
            && (!Contributes(hs[n], k) ==>
                  (k in after <==> k in before) && (k in before ==> after[k] == before[k]))
  {
  }

  /** A key is present exactly when some entry contributes it. */
  lemma {:induction false} HeaderMapKeys(hs: seq<Node>, k: string)
    ensures k in HeaderMap(hs) <==> exists j :: 0 <= j < |hs| && Contributes(hs[j], k)
  {
    if hs != [] {
      var n := |hs| - 1;
      var init := hs[..n];
      HeaderMapKeys(init, k);
      HeaderMapLast(hs, k);
      if !Contributes(hs[n], k) {
        if j :| 0 <= j < |hs| && Contributes(hs[j], k) {
          assert init[j] == hs[j];
        }
        if j :| 0 <= j < n && Contributes(init[j], k) {
          assert init[j] == hs[j];
        }
      }
    }
  }

  /** A key holds the value of the last entry that contributes it: a later header with the
      same lower-cased name overwrites an earlier one. */
  lemma {:induction false} HeaderMapLastWins(hs: seq<Node>, k: string, j: nat)
    requires j < |hs| && Contributes(hs[j], k)
    requires forall j' :: j < j' < |hs| ==> !Contributes(hs[j'], k)
    ensures k in HeaderMap(hs) && HeaderMap(hs)[k] == Qualifying(hs[j]).value.1
  {
    var n := |hs| - 1;
    HeaderMapLast(hs, k);
    if j < n {
      var init := hs[..n];
      assert init[j] == hs[j];
      forall j' | j < j' < |init| ensures !Contributes(init[j'], k) {
        assert init[j'] == hs[j'];
      }
      HeaderMapLastWins(init, k, j);
    }
  }

  /** An entry that contributes nothing (not a mapping, a name that is not a string or is
      exactly "User-Agent", a value that is not a string) can be deleted from the list without
      changing the result. */
  lemma {:induction false} SkippedHeaderIgnored(hs: seq<Node>, j: nat)
    requires j < |hs|
    requires || !hs[j].Map?
             || !Get(hs[j], "name").Str?
             || Get(hs[j], "name").s == "User-Agent"
             || !Get(hs[j], "value").Str?
    ensures HeaderMap(hs[..j] + hs[j + 1..]) == HeaderMap(hs)
  {
    var n := |hs| - 1;
    var without := hs[..j] + hs[j + 1..];
    if j == n {
      assert without == hs[..n];
    } else {
      SkippedHeaderIgnored(hs[..n], j);
      assert without[..|without| - 1] == hs[..n][..j] + hs[..n][j + 1..];
      assert without[|without| - 1] == hs[n];
    }
  }

  /** The loop of parseHeaders, which writes each qualifying header into `result` in place. */
  method ParseHeaders(item: Node) returns (r: Result<map<string, string>>)
    ensures r == ParsedHeaders(item)
  {
    var result: map<string, string> := map[];
    var headers := Get(item, "headers");
    if headers.Null? {
      return Ok(result);
    }
    if !headers.Seq? {
      return Fail("headers is not a sequence");
    }
    var hs := headers.items;
    for i := 0 to |hs|
      invariant result == HeaderMap(hs[..i])
    {
      assert hs[..i + 1][..i] == hs[..i];
      var header := hs[i];
      if header.Map? {
        var name := Get(header, "name");
        if name.Str? {
          if name.s == "User-Agent" {
            continue;
          }
          var value := Get(header, "value");
          if value.Str? {
            result := result[Lower(name.s) := value.s];
          }
        }
      }
    }
    assert hs[..|hs|] == hs;
    return Ok(result);
  }
}
