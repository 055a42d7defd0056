/** createRequestFile: one request item rendered as a `.bru` file in the current output
    directory. The file is four blocks joined by blank lines: the meta block, the method block
    (lower-cased method, url, body type), the headers block (empty when there are no headers)
    and a fixed settings block. */
module Request {
  import opened Yaml
  import opened Text
  import opened Plan
  import opened VarLines
  import opened BodyType
  import opened Headers

  /** The request's file name: the item name with every "/" turned into "_", then "_", the id
      and ".bru". A "/" in the name therefore never creates a sub-directory; one in the id is
      kept. */
  function FileName(name: string, id: string): (r: string)
    ensures |r| == |name| + |id| + 5
    ensures forall i :: 0 <= i < |name| ==> r[i] == (if name[i] == '/' then '_' else name[i])
    ensures '/' !in r[..|name|]
    ensures r[|name|..] == "_" + id + ".bru"
  {
    var safe := ReplaceChar(name, '/', '_');
    assert (safe + "_" + id + ".bru")[..|name|] == safe;
    safe + "_" + id + ".bru"
  }

  /** The meta block: the item name on its own line, then the fixed type and sequence number. */
  function MetaBlock(name: string): (r: string)
    ensures HasPrefix(r, "meta {\n  name: " + name + "\n")
    ensures HasSuffix(r, "\n  type: http\n  seq: 1\n}")
  {
    var head, tail := "meta {\n  name: " + name + "\n", "\n  type: http\n  seq: 1\n}";
    var r := "meta {\n  name: " + name + "\n  type: http\n  seq: 1\n}";
    assert r == head + "  type: http\n  seq: 1\n}";
    assert r[..|head|] == head;
    assert r[|r| - |tail|..] == tail;
    r
  }

  /** The method block: opened by the method, then the url and the body tag, each on its own
      line, and the fixed `auth: inherit`. */
  function MethodBlock(verb: string, url: string, bodyType: string): (r: string)
    ensures HasPrefix(r, verb + " {\n  url: " + url + "\n  body: " + bodyType + "\n")
    ensures HasSuffix(r, "\n  auth: inherit\n}")
  {
    var lines := verb + " {\n  url: " + url + "\n  body: " + bodyType;
    var tail := "\n  auth: inherit\n}";
    var r := lines + tail;
    assert r[|r| - |tail|..] == tail;
    assert r == (lines + "\n") + "  auth: inherit\n}";
    assert r[..|lines + "\n"|] == lines + "\n";
    r
  }

  const SettingsBlock := "settings {\n  encodeUrl: true\n}"

  /** The headers block: nothing at all for an empty header map, otherwise the header lines in
      range order between `headers {` and `}`. */
  function HeaderBlock(headers: map<string, string>, visit: seq<string>): (r: string)
    ensures r == "" <==> |headers| == 0
    ensures |headers| > 0 ==> HasPrefix(r, "headers {\n") && HasSuffix(r, "\n}")
  {
    if |headers| > 0 then
      var r := "headers {\n" + Join(Lines(visit, headers), "\n") + "\n}";
      assert r[..10] == "headers {\n";
      assert r[|r| - 2..] == "\n}";
      r
    else ""
  }

  /** The url written into the method block: "" when the item has no url. */
  function Url(item: Node): (r: Result<string>)
    ensures r.Ok? <==> Get(item, "url").Null? || Get(item, "url").Str?
    ensures r.Ok? ==> (r.value == "" <==> Get(item, "url") in {Null, Str("")})
  {
    var url := Get(item, "url");
    if url.Null? then Ok("")
    else if url.Str? then Ok(url.s)
    else Fail("url is not a string")
  }

  /** The fields createRequestFile asserts the type of: a string `method`, a `url` that is a
      string or absent, a `body` that is absent or a mapping whose `mimeType` is a string or
      absent, and a `headers` entry that is a sequence or absent. */
  predicate WellFormedRequest(item: Node)
  {
    var body, mime := Get(item, "body"), Get(Get(item, "body"), "mimeType");
    && Get(item, "method").Str?
    && (Get(item, "url").Null? || Get(item, "url").Str?)
    && (body.Null? || (body.Map? && (mime.Null? || mime.Str?)))
    && (Get(item, "headers").Null? || Get(item, "headers").Seq?)
  }

  /** The file createRequestFile writes for item `item` (already known to be a mapping with
      string `name` and `meta.id`), or the failed type assertion that stops it. */
  function RequestFile(dir: string, item: Node, name: string, id: string, order: Order): (r: Result<Effect>)
    ensures r.Ok? <==> WellFormedRequest(item)
    ensures r.Ok? ==> r.value.WriteFile? && r.value.path == dir + "/" + FileName(name, id)
  {
    var verb := Get(item, "method");
    if !verb.Str? then Fail("method is not a string")
    else match Url(item)
    case Fail(cause) => Fail(cause)
    case Ok(url) =>
      match DetectBodyType(Get(item, "body"))
      case Fail(cause) => Fail(cause)
      case Ok(bodyType) =>
        match ParsedHeaders(item)
        case Fail(cause) => Fail(cause)
        case Ok(headers) =>
          Ok(WriteFile(dir + "/" + FileName(name, id), RequestContent(name, Lower(verb.s), url, bodyType, headers, order)))
  }

  /** The file body: the four blocks joined by blank lines. */
  function RequestContent(name: string, verb: string, url: string, bodyType: string,
                          headers: map<string, string>, order: Order): (content: string)
    ensures content == MetaBlock(name) + "\n\n" + MethodBlock(verb, url, bodyType) + "\n\n" +
                       HeaderBlock(headers, order(headers)) + "\n\n" + SettingsBlock
  {
    var blocks := [MetaBlock(name), MethodBlock(verb, url, bodyType), HeaderBlock(headers, order(headers)), SettingsBlock];
    JoinFour(blocks[0], blocks[1], blocks[2], blocks[3], "\n\n");
    Join(blocks, "\n\n")
  }

  /** The rendered file, block by block: the meta, method, headers and settings blocks joined
      by blank lines. The header block is empty exactly when there are no headers, which leaves
      three blank lines before the settings block. */
  lemma RequestFileLayout(dir: string, item: Node, name: string, id: string, order: Order)
    requires WellFormedRequest(item)
    ensures var content := RequestFile(dir, item, name, id, order).value.content;
            var headers := ParsedHeaders(item).value;
            var methodBlock := MethodBlock(Lower(Get(item, "method").s), Url(item).value, DetectBodyType(Get(item, "body")).value);
            && content == MetaBlock(name) + "\n\n" + methodBlock + "\n\n" +
                          HeaderBlock(headers, order(headers)) + "\n\n" + SettingsBlock
            && (|headers| == 0 ==>
                  content == MetaBlock(name) + "\n\n" + methodBlock + "\n\n\n\n" + SettingsBlock)
  {
    RequestFileContent(dir, item, name, id, order);
  }

  /** What the method block carries: the method with no upper-case letter left, the url or ""
      when there is none, and one of the four body tags. */
  lemma MethodBlockFields(item: Node)
    requires WellFormedRequest(item)
    ensures var verb := Lower(Get(item, "method").s);
            forall i :: 0 <= i < |verb| ==> !IsUpper(verb[i])
    ensures Url(item).value == if Get(item, "url").Null? then "" else Get(item, "url").s
    ensures DetectBodyType(Get(item, "body")).value in Tags
  {
    LowerIdempotent(Get(item, "method").s);
  }

  /** A well-formed request's file body is built from its lower-cased method, its url, its body
      tag and its header map. */
  lemma RequestFileContent(dir: string, item: Node, name: string, id: string, order: Order)
    requires WellFormedRequest(item)
    ensures RequestFile(dir, item, name, id, order).value.content ==
              RequestContent(name, Lower(Get(item, "method").s), Url(item).value,
                             DetectBodyType(Get(item, "body")).value, ParsedHeaders(item).value, order)
  {
  }

  /** For a valid range order the header block holds one `"  name: value"` line per entry of
      the header map, whatever the order. */
  lemma HeaderBlockLines(headers: map<string, string>, order: Order)
    requires ValidOrder(order)
    ensures |headers| > 0 ==> HeaderBlock(headers, order(headers)) == "headers {\n" + Join(Lines(order(headers), headers), "\n") + "\n}"
    ensures multiset(Lines(order(headers), headers)) == LineBag(headers)
    ensures |Lines(order(headers), headers)| == |headers|
  {
    LinesAreLineBag(order(headers), headers);
  }

  /** createRequestFile, statement by statement. */
  method CreateRequestFile(dir: string, item: Node, name: string, id: string, order: Order)
    returns (r: Result<Effect>)
    requires ValidOrder(order)
    ensures r == RequestFile(dir, item, name, id, order)
  {
    var fileName := ReplaceChar(name, '/', '_') + "_" + id + ".bru";
    var metaData := MetaBlock(name);
    var verb := Get(item, "method");
    if !verb.Str? {
      return Fail("method is not a string");
    }
    var urlAny := Get(item, "url");
    var url := "";
    if !urlAny.Null? {
      if !urlAny.Str? {
        return Fail("url is not a string");
      }
      url := urlAny.s;
    }
    var bodyType := DetectBodyType(Get(item, "body"));
    if bodyType.Fail? {
      return Fail(bodyType.cause);
    }
    var methodData := MethodBlock(Lower(verb.s), url, bodyType.value);
    var headers := ParseHeaders(item);
    if headers.Fail? {
      return Fail(headers.cause);
    }
    var headerData := "";
    if |headers.value| > 0 {
      var headerVars := RenderVarLines(headers.value, order(headers.value));
      headerData := "headers {\n" + Join(headerVars, "\n") + "\n}";
    }
    var content := Join([metaData, methodData, headerData, SettingsBlock], "\n\n");
    assert content == RequestContent(name, Lower(verb.s), url, bodyType.value, headers.value, order);
    return Ok(WriteFile(dir + "/" + fileName, content));
  }
}
