/**
 * LabelPermissionRule: whether the current user may put a label on a
 * document. A god user may use every label, a label already related to the
 * document needs no permission, and any other label needs the label
 * repository's grant.
 */
module LabelPermissionRule {
  import opened LabelReadModels

  /** The user identification: whether the user is a god user, and the user's id. */
  datatype User = User(isGodUser: bool, id: string)

  /** `canUseLabel(userId, name)` of the labels repository. */
  type Grants = (string, string) -> bool

  /** The verdict, and which collaborators were consulted on the way to it. */
  datatype Verdict = Verdict(valid: bool, readRelations: bool, askedGrant: bool)

  /** The early-return foreach: some relation of the document is named exactly `input`. */
  function RelationNamed(relations: seq<LabelRelation>, input: string): (r: bool)
    ensures r <==> exists i :: 0 <= i < |relations| && relations[i].labelName == input
  {
    if relations == [] then false
    else if relations[0].labelName == input then true
    else
      assert forall i :: 0 < i < |relations| ==> relations[i] == relations[1..][i - 1];
      RelationNamed(relations[1..], input)
  }

  /** validate(): the verdict for `input` on the document whose relations are `relations`. */
  function Validate(input: string, user: User, relations: seq<LabelRelation>, canUseLabel: Grants): (v: Verdict)
    ensures v.valid <==>
      user.isGodUser || (exists i :: 0 <= i < |relations| && relations[i].labelName == input) || canUseLabel(user.id, input)
    ensures user.isGodUser ==> v.valid && !v.readRelations && !v.askedGrant
    ensures !user.isGodUser ==> v.readRelations
    ensures v.askedGrant <==> !user.isGodUser && forall i :: 0 <= i < |relations| ==> relations[i].labelName != input
    ensures v.askedGrant ==> v.valid == canUseLabel(user.id, input)
  {
    if user.isGodUser then Verdict(true, false, false)
    else if RelationNamed(relations, input) then Verdict(true, true, false)
    else Verdict(canUseLabel(user.id, input), true, true)
  }

  /** Adding a relation or widening the grants never takes a permission away. */
  lemma ValidateMonotone(input: string, user: User, relations: seq<LabelRelation>, more: seq<LabelRelation>,
                         canUseLabel: Grants, widerGrants: Grants)
    requires forall userId, name :: canUseLabel(userId, name) ==> widerGrants(userId, name)
    requires Validate(input, user, relations, canUseLabel).valid
    ensures Validate(input, user, relations + more, widerGrants).valid
  {
    if !user.isGodUser && !canUseLabel(user.id, input) {
      var i :| 0 <= i < |relations| && relations[i].labelName == input;
      assert (relations + more)[i] == relations[i];
    }
  }

  /** Only the exact name counts: a label that differs from every related name falls back to the grant. */
  lemma OtherNamesNeedTheGrant(user: User, canUseLabel: Grants)
    requires !user.isGodUser && !canUseLabel(user.id, "Foo")
    ensures !Validate("Foo", user, [LabelRelation("foo", false), LabelRelation("bar", true)], canUseLabel).valid
  {
    var relations := [LabelRelation("foo", false), LabelRelation("bar", true)];
    assert relations[0].labelName != "Foo" by { assert "foo"[0] != "Foo"[0]; }
    assert relations[1].labelName != "Foo" by { assert "bar"[0] != "Foo"[0]; }
  }
}
