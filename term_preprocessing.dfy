/**
 * TermPreProcessingJsonImporter: fills in (or corrects) the label and domain
 * of every term whose id the category resolver knows, then hands the
 * document, with the same id, to the importer it wraps.
 */
module TermPreProcessing {
  import opened Wrappers
  import opened Json
  import opened ImportErrors
  import opened Documents

  /** What the category resolver knows about a category id. */
  datatype ResolvedCategory = ResolvedCategory(labelText: string, domain: string)

  type CategoryResolver = string -> Option<ResolvedCategory>

  /** A term with a string `id` that the resolver knows. */
  predicate Resolvable(term: Json, resolve: CategoryResolver) {
    StringMember(term, "id").Some? && resolve(StringMember(term, "id").value).Some?
  }

  /** The callback of the `array_map` over the terms. */
  function Polyfill(term: Json, resolve: CategoryResolver): (r: Json)
    ensures !Resolvable(term, resolve) ==> r == term
    ensures Resolvable(term, resolve) ==>
      var category := resolve(StringMember(term, "id").value).value;
      r.JObject? && r.members.Keys == term.members.Keys + {"label", "domain"} &&
      r.members["label"] == JString(category.labelText) && r.members["domain"] == JString(category.domain) &&
      forall k :: k in term.members && k != "label" && k != "domain" ==> r.members[k] == term.members[k]
    ensures IsArray(term) ==> IsArray(r)
  {
    if Resolvable(term, resolve) then
      var category := resolve(term.members["id"].s).value;
      JObject(term.members["label" := JString(category.labelText)]["domain" := JString(category.domain)])
    else
      term
  }

  /** The rewrite of the document body; Err when a term is not an array (the callback's TypeError). */
  function TermsRewrite(body: Json, resolve: CategoryResolver): (r: Result<Json, ImportError>)
    ensures !(body.JObject? && "terms" in body.members && IsArray(body.members["terms"])) ==> r == Ok(body)
    ensures r.Err? ==> r.error == ArrayTypeError
    ensures body.JObject? && "terms" in body.members && IsArray(body.members["terms"]) ==>
      (r.Ok? <==> ArrayMap(body.members["terms"], t => Polyfill(t, resolve)).Some?)
    ensures r.Ok? && body.JObject? ==>
      r.value.JObject? && r.value.members.Keys == body.members.Keys &&
      forall k :: k in body.members && k != "terms" ==> r.value.members[k] == body.members[k]
    ensures r.Ok? && body.JObject? && "terms" in body.members && body.members["terms"].JArray? ==>
      var terms := body.members["terms"].items;
      r.value.members["terms"].JArray? && |r.value.members["terms"].items| == |terms| &&
      forall i :: 0 <= i < |terms| ==> r.value.members["terms"].items[i] == Polyfill(terms[i], resolve)
  {
    if !body.JObject? then Ok(body)
    else
      match MapArrayMember(body.members, "terms", t => Polyfill(t, resolve))
      case None => Err(ArrayTypeError)
      case Some(members) => Ok(JObject(members))
  }

  /** Polyfilling a term twice gives what polyfilling it once gives. */
  lemma PolyfillIdempotent(term: Json, resolve: CategoryResolver)
    ensures Polyfill(Polyfill(term, resolve), resolve) == Polyfill(term, resolve)
  {
    if Resolvable(term, resolve) {
      var once := Polyfill(term, resolve);
      assert StringMember(once, "id") == StringMember(term, "id");
      assert Polyfill(once, resolve).members == once.members;
    }
  }

  /** With a resolver that always answers the same, rewriting an already rewritten body changes nothing. */
  lemma {:induction false} TermsRewriteIdempotent(body: Json, resolve: CategoryResolver)
    requires TermsRewrite(body, resolve).Ok?
    ensures TermsRewrite(TermsRewrite(body, resolve).value, resolve) == TermsRewrite(body, resolve)
  {
    var once := TermsRewrite(body, resolve).value;
    var f := t => Polyfill(t, resolve);
    if body.JObject? && "terms" in body.members && IsArray(body.members["terms"]) {
      var mapped := ArrayMap(body.members["terms"], f).value;
      assert once.members["terms"] == mapped;
      match body.members["terms"]
      case JArray(items) =>
        forall i | 0 <= i < |mapped.items| ensures IsArray(mapped.items[i]) && f(mapped.items[i]) == mapped.items[i] {
          PolyfillIdempotent(items[i], resolve);
        }
        var twice := ArrayMap(mapped, f).value;
        assert twice == mapped;
        assert once.members["terms" := twice] == once.members;
      case JObject(m) =>
        forall k | k in mapped.members ensures IsArray(mapped.members[k]) && f(mapped.members[k]) == mapped.members[k] {
          PolyfillIdempotent(m[k], resolve);
        }
        var twice := ArrayMap(mapped, f).value;
        assert twice == mapped;
        assert once.members["terms" := twice] == once.members;
    }
  }

  /** import(): rewrite `$data['terms']` in place, then delegate exactly once with the same id. */
  method Import(document: JsonDocument, resolve: CategoryResolver, inner: TraceableImporter<JsonDocument>)
    returns (outcome: Outcome<ImportError>)
    modifies inner
    ensures TermsRewrite(document.body, resolve).Ok? ==>
      outcome == Pass && inner.received == old(inner.received) + [JsonDocument(document.id, TermsRewrite(document.body, resolve).value)]
    ensures TermsRewrite(document.body, resolve).Err? ==>
      outcome == Fail(ArrayTypeError) && inner.received == old(inner.received)
  {
    var data := document.body;
    if data.JObject? && "terms" in data.members && IsArray(data.members["terms"]) {
      var terms := ArrayMap(data.members["terms"], t => Polyfill(t, resolve));
      if terms.None? {
        return Fail(ArrayTypeError);
      }
      data := JObject(data.members["terms" := terms.value]);
    }
    inner.Import(JsonDocument(document.id, data));
    return Pass;
  }
}
