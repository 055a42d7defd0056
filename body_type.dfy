/** detectBodyType: the coarse body encoding written into a request's method block, chosen by
    the suffix of the body's `mimeType`. */
module BodyType {
  import opened Yaml
  import opened Text

  const JsonMime := "application/json"
  const MultipartMime := "multipart/form-data"
  const FormMime := "application/x-www-form-urlencoded"

  /** The four tags the converter can write after `body:`. */
  const Tags: set<string> := {"json", "multipartForm", "formUrlEncoded", "none"}

  /** The MIME string the classifier looks at: "" when there is no body or the body has no
      `mimeType`; a body that is not a mapping, or a `mimeType` that is not a string, fails
      the type assertion. */
  function MimeType(body: Node): (r: Result<string>)
    ensures r.Ok? <==> body.Null? || (body.Map? && (Get(body, "mimeType").Null? || Get(body, "mimeType").Str?))
    ensures body.Null? ==> r == Ok("")
    ensures body.Map? && Get(body, "mimeType").Null? ==> r == Ok("")
    ensures body.Map? && Get(body, "mimeType").Str? ==> r == Ok(Get(body, "mimeType").s)
  {
    if body.Null? then Ok("")
    else if !body.Map? then Fail("body is not a mapping")
    else
      var mime := Get(body, "mimeType");
      if mime.Null? then Ok("")
      else if mime.Str? then Ok(mime.s)
      else Fail("body.mimeType is not a string")
  }

  /** A string ending in `suffix` has the suffix's last character as its own last one. */
  lemma SuffixLastChar(s: string, suffix: string)
    requires HasSuffix(s, suffix) && |suffix| > 0
    ensures s[|s| - 1] == suffix[|suffix| - 1]
  {
    assert s[|s| - |suffix|..][|suffix| - 1] == s[|s| - 1];
  }

  /** The three suffixes end in different characters, so at most one of them matches. */
  lemma SuffixesExclusive(mime: string)
    ensures !(HasSuffix(mime, JsonMime) && HasSuffix(mime, MultipartMime))
    ensures !(HasSuffix(mime, JsonMime) && HasSuffix(mime, FormMime))
    ensures !(HasSuffix(mime, MultipartMime) && HasSuffix(mime, FormMime))
  {
    if HasSuffix(mime, JsonMime) { SuffixLastChar(mime, JsonMime); }
    if HasSuffix(mime, MultipartMime) { SuffixLastChar(mime, MultipartMime); }
    if HasSuffix(mime, FormMime) { SuffixLastChar(mime, FormMime); }
  }

  /** The suffix chain of detectBodyType: each tag is chosen exactly when its suffix is present. */
  function Classify(mime: string): (tag: string)
    ensures tag in Tags
    ensures tag == "json" <==> HasSuffix(mime, JsonMime)
    ensures tag == "multipartForm" <==> HasSuffix(mime, MultipartMime)
    ensures tag == "formUrlEncoded" <==> HasSuffix(mime, FormMime)
    ensures tag == "none" <==> !HasSuffix(mime, JsonMime) && !HasSuffix(mime, MultipartMime) && !HasSuffix(mime, FormMime)
  {
    SuffixesExclusive(mime);
    if HasSuffix(mime, JsonMime) then "json"
    else if HasSuffix(mime, MultipartMime) then "multipartForm"
    else if HasSuffix(mime, FormMime) then "formUrlEncoded"
    else "none"
  }

  /** detectBodyType on a request's `body` field. */
  function DetectBodyType(body: Node): (r: Result<string>)
    ensures r.Ok? <==> MimeType(body).Ok?
    ensures r.Ok? ==> r.value in Tags
    ensures body.Null? ==> r == Ok("none")
    ensures body.Map? && Get(body, "mimeType").Null? ==> r == Ok("none")
    ensures body.Map? && Get(body, "mimeType").Str? ==>
              (r == Ok("json") <==> HasSuffix(Get(body, "mimeType").s, JsonMime))
  {
    match MimeType(body)
    case Ok(mime) => Ok(Classify(mime))
    case Fail(cause) => Fail(cause)
  }

  /** The classification looks only at how the MIME string ends: whatever is put in front of
      it (a charset, parameters) does not change the tag. */
  lemma {:induction false} ClassifyIgnoresPrefix(front: string, mime: string)
    requires HasSuffix(mime, JsonMime) || HasSuffix(mime, MultipartMime) || HasSuffix(mime, FormMime)
    ensures Classify(front + mime) == Classify(mime)
  {
    if HasSuffix(mime, JsonMime) {
      HasSuffixExtend(front, mime, JsonMime);
    } else if HasSuffix(mime, MultipartMime) {
      HasSuffixExtend(front, mime, MultipartMime);
    } else {
      HasSuffixExtend(front, mime, FormMime);
    }
  }
}
