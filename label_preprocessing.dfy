/**
 * LabelPreProcessingDocumentImporter: makes the `labels` and `hiddenLabels`
 * of a document agree with the labels already related to the item. Every
 * name of a relation that was not imported is removed from both lists and
 * then appended again, to `labels` when the label repository says it is
 * visible and to `hiddenLabels` otherwise; the document, with the same id,
 * then goes to the importer it wraps.
 */
module LabelPreProcessing {
  import opened Wrappers
  import opened Seqs
  import opened Json
  import opened ImportErrors
  import opened Documents
  import opened LabelReadModels

  /** The relations that were not imported: only these count as tracked. */
  function TrackedRelations(relations: seq<LabelRelation>): (r: seq<LabelRelation>)
    ensures forall i :: 0 <= i < |r| ==> r[i] in relations && !r[i].imported
    ensures forall i :: 0 <= i < |relations| && !relations[i].imported ==> relations[i] in r
  {
    Filter(relations, (relation: LabelRelation) => !relation.imported)
  }

  /** `$udb3Labels`: the names of the tracked relations, in relation order. */
  function TrackedNames(relations: seq<LabelRelation>): (names: seq<string>)
    ensures var tracked := TrackedRelations(relations);
      |names| == |tracked| && forall i :: 0 <= i < |tracked| ==> names[i] == tracked[i].labelName
  {
    var tracked := TrackedRelations(relations);
    seq(|tracked|, i requires 0 <= i < |tracked| => tracked[i].labelName)
  }

  /** `array_diff($list, $udb3Labels)` followed by `array_values`: the entries that are not tracked, in order. */
  function Untracked(list: seq<string>, tracked: seq<string>): (r: seq<string>)
    ensures forall i :: 0 <= i < |r| ==> r[i] in list && r[i] !in tracked
    ensures forall i :: 0 <= i < |list| && list[i] !in tracked ==> list[i] in r
  {
    Filter(list, (name: string) => name !in tracked)
  }

  /** The repository names of the tracked labels whose visibility is `visible`, in relation order. */
  function AddedNames(tracked: seq<string>, labels: LabelRepository, visible: bool): (r: seq<string>)
    ensures |r| <= |tracked|
  {
    if tracked == [] then []
    else
      (if labels(tracked[0]).Some? && labels(tracked[0]).value.visible == visible then [labels(tracked[0]).value.name] else []) +
      AddedNames(tracked[1..], labels, visible)
  }

  /**
   * The foreach over the tracked relations, with the lists built so far:
   * stops at the first name the label repository does not know (a method
   * call on null), else appends each repository name to one list.
   */
  function Reappend(visibleList: seq<string>, hiddenList: seq<string>, tracked: seq<string>, labels: LabelRepository)
    : (r: Result<(seq<string>, seq<string>), ImportError>)
    ensures r.Ok? <==> forall i :: 0 <= i < |tracked| ==> labels(tracked[i]).Some?
    ensures r.Ok? ==>
      r.value == (visibleList + AddedNames(tracked, labels, true), hiddenList + AddedNames(tracked, labels, false))
    ensures r.Err? ==> exists i :: 0 <= i < |tracked| && labels(tracked[i]).None? && r.error == LabelNotFound(tracked[i])
    decreases |tracked|
  {
    if tracked == [] then
      assert visibleList + [] == visibleList && hiddenList + [] == hiddenList;
      Ok((visibleList, hiddenList))
    else
      match labels(tracked[0])
      case None => Err(LabelNotFound(tracked[0]))
      case Some(found) =>
        var r := if found.visible then Reappend(visibleList + [found.name], hiddenList, tracked[1..], labels)
                 else Reappend(visibleList, hiddenList + [found.name], tracked[1..], labels);
        assert r.Ok? ==> (forall i :: 0 <= i < |tracked| ==> labels(tracked[i]).Some?) by {
          if r.Ok? {
            forall i | 0 <= i < |tracked| ensures labels(tracked[i]).Some? {
              if i > 0 { assert tracked[i] == tracked[1..][i - 1]; }
            }
          }
        }
        assert r.Err? ==> exists i :: 0 <= i < |tracked| && labels(tracked[i]).None? && r.error == LabelNotFound(tracked[i]) by {
          if r.Err? {
            var j :| 0 <= j < |tracked[1..]| && labels(tracked[1..][j]).None? && r.error == LabelNotFound(tracked[1..][j]);
            assert tracked[j + 1] == tracked[1..][j];
          }
        }
        assert found.visible ==> AddedNames(tracked, labels, false) == AddedNames(tracked[1..], labels, false);
        assert !found.visible ==> AddedNames(tracked, labels, true) == AddedNames(tracked[1..], labels, true);
        assert r.Ok? && found.visible ==>
          visibleList + [found.name] + AddedNames(tracked[1..], labels, true) == visibleList + AddedNames(tracked, labels, true);
        assert r.Ok? && !found.visible ==>
          hiddenList + [found.name] + AddedNames(tracked[1..], labels, false) == hiddenList + AddedNames(tracked, labels, false);
        r
  }

  /** Every tracked name the repository knows is appended to exactly one of the two lists. */
  lemma {:induction false} AddedNamesSplit(tracked: seq<string>, labels: LabelRepository)
    requires forall i :: 0 <= i < |tracked| ==> labels(tracked[i]).Some?
    ensures |AddedNames(tracked, labels, true)| + |AddedNames(tracked, labels, false)| == |tracked|
    ensures forall i :: 0 <= i < |tracked| ==>
      labels(tracked[i]).value.name in AddedNames(tracked, labels, labels(tracked[i]).value.visible)
  {
    if tracked != [] {
      AddedNamesSplit(tracked[1..], labels);
      forall i | 0 < i < |tracked|
        ensures labels(tracked[i]).value.name in AddedNames(tracked, labels, labels(tracked[i]).value.visible)
      {
        assert tracked[i] == tracked[1..][i - 1];
      }
    }
  }

  /** The source reads both lists without checking that they are there. */
  predicate HasLabelLists(body: map<string, Json>) {
    "labels" in body && AsStrings(body["labels"]).Some? &&
    "hiddenLabels" in body && AsStrings(body["hiddenLabels"]).Some?
  }

  /** The reconciled body, or the exception that stops the import before any delegation. */
  function Reconciled(body: map<string, Json>, relations: seq<LabelRelation>, labels: LabelRepository)
    : (r: Result<map<string, Json>, ImportError>)
    requires HasLabelLists(body)
  {
    var tracked := TrackedNames(relations);
    var lists :- Reappend(Untracked(AsStrings(body["labels"]).value, tracked),
                          Untracked(AsStrings(body["hiddenLabels"]).value, tracked), tracked, labels);
    Ok(body["labels" := Strings(lists.0)]["hiddenLabels" := Strings(lists.1)])
  }

  /**
   * What the reconciliation promises: it fails exactly when a tracked name
   * is unknown to the label repository; otherwise each list is its untracked
   * entries in their order followed by the tracked labels of its visibility
   * in relation order, and no other key changes.
   */
  lemma {:induction false} ReconciledLists(body: map<string, Json>, relations: seq<LabelRelation>, labels: LabelRepository)
    requires HasLabelLists(body)
    ensures var tracked := TrackedNames(relations);
      var r := Reconciled(body, relations, labels);
      (r.Ok? <==> forall i :: 0 <= i < |tracked| ==> labels(tracked[i]).Some?) &&
      (r.Ok? ==>
        r.value.Keys == body.Keys &&
        (forall k :: k in body && k != "labels" && k != "hiddenLabels" ==> r.value[k] == body[k]) &&
        AsStrings(r.value["labels"]) ==
          Some(Untracked(AsStrings(body["labels"]).value, tracked) + AddedNames(tracked, labels, true)) &&
        AsStrings(r.value["hiddenLabels"]) ==
          Some(Untracked(AsStrings(body["hiddenLabels"]).value, tracked) + AddedNames(tracked, labels, false)))
  {
    var r := Reconciled(body, relations, labels);
    if r.Ok? {
      var tracked := TrackedNames(relations);
      var lists := Reappend(Untracked(AsStrings(body["labels"]).value, tracked),
                            Untracked(AsStrings(body["hiddenLabels"]).value, tracked), tracked, labels).value;
      StringsRoundTrip(lists.0);
      StringsRoundTrip(lists.1);
    }
  }

  /** Reading back the list a body was given gives that list. */
  lemma StringsRoundTrip(names: seq<string>)
    ensures AsStrings(Strings(names)) == Some(names)
  {
    var back := AsStrings(Strings(names)).value;
    assert |back| == |names| by { assert |Strings(back).items| == |Strings(names).items|; }
    forall i | 0 <= i < |names| ensures back[i] == names[i] {
      assert Strings(back).items[i] == JString(back[i]);
    }
    assert back == names;
  }

  /**
   * Every tracked label ends up in the list its repository visibility
   * names, whichever list (if any) the incoming document had it in.
   */
  lemma TrackedLabelsFollowVisibility(body: map<string, Json>, relations: seq<LabelRelation>, labels: LabelRepository)
    requires HasLabelLists(body)
    requires forall i :: 0 <= i < |TrackedNames(relations)| ==> labels(TrackedNames(relations)[i]).Some?
    ensures var tracked := TrackedNames(relations);
      var result := Reconciled(body, relations, labels);
      result.Ok? && "labels" in result.value && "hiddenLabels" in result.value &&
      AsStrings(result.value["labels"]).Some? && AsStrings(result.value["hiddenLabels"]).Some? &&
      forall i :: 0 <= i < |tracked| ==>
        labels(tracked[i]).value.name in
          AsStrings(if labels(tracked[i]).value.visible then result.value["labels"] else result.value["hiddenLabels"]).value
  {
    var tracked := TrackedNames(relations);
    ReconciledLists(body, relations, labels);
    AddedNamesSplit(tracked, labels);
    var r := Reconciled(body, relations, labels).value;
    var visibleList := AsStrings(r["labels"]).value;
    var hiddenList := AsStrings(r["hiddenLabels"]).value;
    assert visibleList == Untracked(AsStrings(body["labels"]).value, tracked) + AddedNames(tracked, labels, true);
    assert hiddenList == Untracked(AsStrings(body["hiddenLabels"]).value, tracked) + AddedNames(tracked, labels, false);
    forall i | 0 <= i < |tracked|
      ensures labels(tracked[i]).value.name in
        AsStrings(if labels(tracked[i]).value.visible then r["labels"] else r["hiddenLabels"]).value
    {
      var found := labels(tracked[i]).value;
      assert found.name in AddedNames(tracked, labels, found.visible);
      if found.visible {
        assert found.name in visibleList;
      } else {
        assert found.name in hiddenList;
      }
    }
  }

  /** A label repository in which `foo` is hidden and `bar` visible. */
  function ExampleLabels(name: string): Option<LabelRecord> {
    if name == "foo" then Some(LabelRecord("foo", false))
    else if name == "bar" then Some(LabelRecord("bar", true))
    else None
  }

  /**
   * A label the document lists as visible but the repository keeps hidden
   * moves to `hiddenLabels`, a visible label the document left out is added
   * to `labels`, and an imported relation is left to the document.
   */
  lemma HiddenLabelMoves()
    ensures var body := map["labels" := Strings(["foo", "baz"]), "hiddenLabels" := Strings(["qux"])];
      var relations := [LabelRelation("foo", false), LabelRelation("bar", false), LabelRelation("qux", true)];
      HasLabelLists(body) &&
      Reconciled(body, relations, ExampleLabels) ==
        Ok(body["labels" := Strings(["baz", "bar"])]["hiddenLabels" := Strings(["qux", "foo"])])
  {
    var body := map["labels" := Strings(["foo", "baz"]), "hiddenLabels" := Strings(["qux"])];
    StringsRoundTrip(["foo", "baz"]);
    StringsRoundTrip(["qux"]);
    assert HasLabelLists(body);
    ExampleTracked();
    ExampleUntracked();
    ExampleReappend();
  }

  /** Only the relations that were not imported are tracked, in relation order. */
  lemma ExampleTracked()
    ensures TrackedNames([LabelRelation("foo", false), LabelRelation("bar", false), LabelRelation("qux", true)]) ==
      ["foo", "bar"]
  {
    var p := (relation: LabelRelation) => !relation.imported;
    var last := [LabelRelation("qux", true)];
    var tail := [LabelRelation("bar", false)] + last;
    var relations := [LabelRelation("foo", false)] + tail;
    assert Filter(last, p) == [] by { assert last[1..] == []; }
    assert Filter(tail, p) == [LabelRelation("bar", false)] by { assert tail[1..] == last; }
    assert Filter(relations, p) == [LabelRelation("foo", false), LabelRelation("bar", false)] by {
      assert relations[1..] == tail;
    }
    assert relations == [LabelRelation("foo", false), LabelRelation("bar", false), LabelRelation("qux", true)];
  }

  /** The tracked names leave both lists of the example document. */
  lemma ExampleUntracked()
    ensures Untracked(["foo", "baz"], ["foo", "bar"]) == ["baz"]
    ensures Untracked(["qux"], ["foo", "bar"]) == ["qux"]
  {
    var tracked := ["foo", "bar"];
    assert "baz" !in tracked by { assert "baz"[2] != "foo"[2] && "baz"[2] != "bar"[2]; }
    assert "qux" !in tracked by { assert "qux"[0] != "foo"[0] && "qux"[0] != "bar"[0]; }
    assert Untracked(["baz"], tracked) == ["baz"];
    assert Untracked(["foo", "baz"], tracked) == ["baz"] by { assert ["foo", "baz"][1..] == ["baz"]; }
  }

  lemma ExampleReappend()
    ensures Reappend(["baz"], ["qux"], ["foo", "bar"], ExampleLabels) == Ok((["baz", "bar"], ["qux", "foo"]))
  {
    assert ["foo", "bar"][1..] == ["bar"] && ["bar"][1..] == [];
    assert "bar" != "foo" by { assert "bar"[0] != "foo"[0]; }
    assert ExampleLabels("foo") == Some(LabelRecord("foo", false));
    assert ExampleLabels("bar") == Some(LabelRecord("bar", true));
    assert ["baz"] + ["bar"] == ["baz", "bar"] && ["qux"] + ["foo"] == ["qux", "foo"];
    assert Reappend(["baz", "bar"], ["qux", "foo"], [], ExampleLabels) == Ok((["baz", "bar"], ["qux", "foo"]));
    assert Reappend(["baz"], ["qux", "foo"], ["bar"], ExampleLabels) == Ok((["baz", "bar"], ["qux", "foo"]));
  }

  /** The loop of import(): the array_diff reassignments, then the foreach that appends. */
  method Reconcile(body: map<string, Json>, relations: seq<LabelRelation>, labels: LabelRepository)
    returns (r: Result<map<string, Json>, ImportError>)
    requires HasLabelLists(body)
    ensures r == Reconciled(body, relations, labels)
  {
    var tracked := TrackedNames(relations);
    var visibleList := Untracked(AsStrings(body["labels"]).value, tracked);
    var hiddenList := Untracked(AsStrings(body["hiddenLabels"]).value, tracked);
    ghost var whole := Reappend(visibleList, hiddenList, tracked, labels);
    for i := 0 to |tracked|
      invariant Reappend(visibleList, hiddenList, tracked[i..], labels) == whole
    {
      assert tracked[i..][1..] == tracked[i + 1..];
      var found := labels(tracked[i]);
      if found.None? {
        return Err(LabelNotFound(tracked[i]));
      }
      if found.value.visible {
        visibleList := visibleList + [found.value.name];
      } else {
        hiddenList := hiddenList + [found.value.name];
      }
    }
    assert tracked[|tracked|..] == [];
    return Ok(body["labels" := Strings(visibleList)]["hiddenLabels" := Strings(hiddenList)]);
  }

  /** import(): reconcile, then delegate the document exactly once with the same id. */
  method Import(document: DecodedDocument, relationsFor: RelationsRepository, labels: LabelRepository,
                inner: TraceableImporter<DecodedDocument>)
    returns (outcome: Outcome<ImportError>)
    requires HasLabelLists(document.body)
    modifies inner
    ensures Reconciled(document.body, relationsFor(document.id), labels).Ok? ==>
      outcome == Pass &&
      inner.received == old(inner.received) +
        [DecodedDocument(document.id, Reconciled(document.body, relationsFor(document.id), labels).value)]
    ensures Reconciled(document.body, relationsFor(document.id), labels).Err? ==>
      outcome == Fail(Reconciled(document.body, relationsFor(document.id), labels).error) &&
      inner.received == old(inner.received)
  {
    var body := Reconcile(document.body, relationsFor(document.id), labels);
    if body.Err? {
      return Fail(body.error);
    }
    inner.Import(DecodedDocument(document.id, body.value));
    return Pass;
  }
}
