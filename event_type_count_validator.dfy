/**
 * EventTypeCountValidator: terms given as an array must hold exactly one
 * term whose `domain` is `eventtype`; terms in any other form are left to
 * other validators.
 */
module EventTypeCountValidator {
  import opened Wrappers
  import opened Seqs
  import opened Json
  import opened ImportErrors

  /** `isset($category['domain']) && $category['domain'] === 'eventtype'` */
  predicate IsEventTypeTerm(category: Json) {
    category.JObject? && "domain" in category.members && category.members["domain"] == JString("eventtype")
  }

  /** The keys of an associative terms array whose term is an event type. */
  function EventTypeKeys(terms: map<string, Json>): set<string> {
    set k | k in terms && IsEventTypeTerm(terms[k])
  }

  /**
   * The `When(ArrayType, Callback, AlwaysValid)` rule: Ok(valid), or Err
   * when a term is not itself an array (the filter callback's TypeError).
   */
  function Validate(input: Json): (r: Result<bool, ImportError>)
    ensures !IsArray(input) ==> r == Ok(true)
    ensures r.Err? ==> r.error == ArrayTypeError
    ensures input.JArray? ==>
      (r.Err? <==> exists i :: 0 <= i < |input.items| && !IsArray(input.items[i])) &&
      (r.Ok? ==> (r.value <==> Count(input.items, IsEventTypeTerm) == 1))
    ensures input.JObject? ==>
      (r.Err? <==> exists k :: k in input.members && !IsArray(input.members[k])) &&
      (r.Ok? ==> (r.value <==> |EventTypeKeys(input.members)| == 1))
  {
    match input
    case JArray(items) =>
      if forall i :: 0 <= i < |items| ==> IsArray(items[i]) then Ok(Count(items, IsEventTypeTerm) == 1)
      else Err(ArrayTypeError)
    case JObject(terms) =>
      if forall k :: k in terms ==> IsArray(terms[k]) then Ok(|EventTypeKeys(terms)| == 1)
      else Err(ArrayTypeError)
    case _ => Ok(true)
  }

  /** A list of terms none of which is an event type is refused. */
  lemma NoEventTypeIsInvalid(items: seq<Json>)
    requires forall i :: 0 <= i < |items| ==> IsArray(items[i]) && !IsEventTypeTerm(items[i])
    ensures Validate(JArray(items)) == Ok(false)
  {
  }

  /** Two event type terms in a list are refused, whatever else the list holds. */
  lemma {:induction false} TwoEventTypesAreInvalid(items: seq<Json>, i: nat, j: nat)
    requires forall k :: 0 <= k < |items| ==> IsArray(items[k])
    requires i < j < |items| && IsEventTypeTerm(items[i]) && IsEventTypeTerm(items[j])
    ensures Validate(JArray(items)) == Ok(false)
  {
    assert items == items[..i] + [items[i]] + items[i + 1..j] + [items[j]] + items[j + 1..];
    CountConcat(items[..i] + [items[i]] + items[i + 1..j] + [items[j]], items[j + 1..], IsEventTypeTerm);
    CountConcat(items[..i] + [items[i]] + items[i + 1..j], [items[j]], IsEventTypeTerm);
    CountConcat(items[..i] + [items[i]], items[i + 1..j], IsEventTypeTerm);
    CountConcat(items[..i], [items[i]], IsEventTypeTerm);
  }

  /** Exactly one event type term among array terms is accepted. */
  lemma {:induction false} OneEventTypeIsValid(items: seq<Json>, i: nat)
    requires forall k :: 0 <= k < |items| ==> IsArray(items[k])
    requires i < |items| && IsEventTypeTerm(items[i])
    requires forall k :: 0 <= k < |items| && k != i ==> !IsEventTypeTerm(items[k])
    ensures Validate(JArray(items)) == Ok(true)
  {
    assert items == items[..i] + [items[i]] + items[i + 1..];
    CountConcat(items[..i] + [items[i]], items[i + 1..], IsEventTypeTerm);
    CountConcat(items[..i], [items[i]], IsEventTypeTerm);
    assert forall k :: 0 <= k < |items[..i]| ==> items[..i][k] == items[k];
    var rest := items[i + 1..];
    assert forall k :: 0 <= k < |rest| ==> rest[k] == items[i + 1 + k];
  }

  /** A term without a `domain` (or with another one) does not change the verdict. */
  lemma {:induction false} OtherTermsAreNotCounted(items: seq<Json>, term: Json)
    requires IsArray(term) && !IsEventTypeTerm(term)
    ensures Validate(JArray(items + [term])) == Validate(JArray(items))
  {
    CountConcat(items, [term], IsEventTypeTerm);
    assert forall k :: 0 <= k < |items| ==> (items + [term])[k] == items[k];
    assert (items + [term])[|items|] == term;
  }

  /** The verdict depends only on which terms there are, not on their order. */
  lemma {:induction false} OrderDoesNotMatter(items: seq<Json>, reordered: seq<Json>)
    requires multiset(items) == multiset(reordered)
    ensures Validate(JArray(items)) == Validate(JArray(reordered))
  {
    CountPermutation(items, reordered, IsEventTypeTerm);
    forall k | 0 <= k < |reordered| ensures reordered[k] in items {
      assert reordered[k] in multiset(reordered);
    }
    forall k | 0 <= k < |items| ensures items[k] in reordered {
      assert items[k] in multiset(items);
    }
  }
}
