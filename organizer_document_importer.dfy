/**
 * OrganizerDocumentImporter: denormalizes a decoded organizer document, views
 * it through the legacy organizer adapter and dispatches the legacy commands
 * that create or update the organizer aggregate.
 */
module OrganizerDocumentImporter {
  import opened Wrappers
  import opened Seqs
  import opened Udb3Model
  import opened LegacyCommands
  import opened ImportErrors
  import opened Documents
  import opened OrganizerAdapter

  datatype Collaborators = Collaborators(
    load: string -> LoadOutcome,
    denormalize: map<string, Json.Json> -> Option<Organizer>)

  predicate DenormalizesWellFormed(c: Collaborators, body: map<string, Json.Json>) {
    c.denormalize(body).Some? ==> c.denormalize(body).value.WellFormed()
  }

  datatype Reading = Reading(aggregateExists: bool, adapter: LegacyOrganizerAdapter) {
    predicate Valid() {
      adapter.Valid()
    }
  }

  /** The reads in source order: repository, denormalizer, then the adapter's constructor. */
  function Read(document: DecodedDocument, c: Collaborators): (r: Result<Reading, ImportError>)
    requires DenormalizesWellFormed(c, document.body)
    ensures c.load(document.id) == LoadFailed ==> r == Err(AggregateLoadFailed)
    ensures c.load(document.id) != LoadFailed && c.denormalize(document.body).None? ==>
      r == Err(DenormalizationFailed)
    ensures (c.load(document.id) != LoadFailed && c.denormalize(document.body).Some? &&
      c.denormalize(document.body).value.url.None?) ==> r == Err(OrganizerUrlRequired)
    ensures r.Ok? <==> (c.load(document.id) != LoadFailed && c.denormalize(document.body).Some? &&
      c.denormalize(document.body).value.url.Some?)
    ensures r.Ok? ==> r.value.Valid() && c.denormalize(document.body) == Some(r.value.adapter.organizer)
    ensures r.Ok? ==> (r.value.aggregateExists <==> c.load(document.id) == Loaded)
  {
    var aggregateExists :- AggregateExists(c.load(document.id));
    var organizer :- if c.denormalize(document.body).None? then Err(DenormalizationFailed)
                     else Ok(c.denormalize(document.body).value);
    var adapter :- FromOrganizer(organizer);
    Ok(Reading(aggregateExists, adapter))
  }

  /** Create a new organizer, or update the title and website of an existing one. */
  function BranchCommands(id: string, rd: Reading): seq<OrganizerCommand>
    requires rd.Valid()
  {
    var adapter := rd.adapter;
    if !rd.aggregateExists then
      [CreateOrganizer(id, adapter.MainLanguage(), adapter.Website(), adapter.Title())]
    else
      [UpdateOrganizerTitle(id, adapter.Title(), adapter.MainLanguage()),
       UpdateWebsite(id, adapter.Website())]
  }

  function TitleUpdates(id: string, titles: seq<(Language, string)>): seq<OrganizerCommand> {
    seq(|titles|, i requires 0 <= i < |titles| => UpdateOrganizerTitle(id, titles[i].1, titles[i].0))
  }

  /** Labels are imported only when there is at least one. */
  function LabelCommands(id: string, labels: seq<LabelValue>): seq<OrganizerCommand> {
    if |labels| > 0 then [ImportOrganizerLabels(id, labels)] else []
  }

  function CommandsFor(id: string, rd: Reading): seq<OrganizerCommand>
    requires rd.Valid()
  {
    BranchCommands(id, rd) + TitleUpdates(id, rd.adapter.TitleTranslationsOf()) +
    LabelCommands(id, rd.adapter.organizer.labels)
  }

  /** What one import dispatches, or the exception that stops it before any dispatch. */
  function OrganizerCommands(document: DecodedDocument, c: Collaborators): (r: Result<seq<OrganizerCommand>, ImportError>)
    requires DenormalizesWellFormed(c, document.body)
  {
    var rd :- Read(document, c);
    Ok(CommandsFor(document.id, rd))
  }

  /** The foreach over getTitleTranslations(). */
  method AppendTitleUpdates(commands: seq<OrganizerCommand>, id: string, titles: seq<(Language, string)>)
    returns (r: seq<OrganizerCommand>)
    ensures r == commands + TitleUpdates(id, titles)
  {
    r := commands;
    for i := 0 to |titles|
      invariant r == commands + TitleUpdates(id, titles[..i])
    {
      assert TitleUpdates(id, titles[..i + 1]) == TitleUpdates(id, titles[..i]) + [UpdateOrganizerTitle(id, titles[i].1, titles[i].0)];
      r := r + [UpdateOrganizerTitle(id, titles[i].1, titles[i].0)];
    }
    assert titles[..|titles|] == titles;
  }

  /** The body of import() up to the dispatch loop. */
  method Build(document: DecodedDocument, c: Collaborators) returns (r: Result<seq<OrganizerCommand>, ImportError>)
    requires DenormalizesWellFormed(c, document.body)
    ensures r == OrganizerCommands(document, c)
  {
    var read := Read(document, c);
    if read.Err? {
      return Err(read.error);
    }
    var rd := read.value;
    var id := document.id;
    var adapter := rd.adapter;
    var commands: seq<OrganizerCommand> := [];
    if !rd.aggregateExists {
      commands := commands + [CreateOrganizer(id, adapter.MainLanguage(), adapter.Website(), adapter.Title())];
    } else {
      commands := commands + [UpdateOrganizerTitle(id, adapter.Title(), adapter.MainLanguage())];
      commands := commands + [UpdateWebsite(id, adapter.Website())];
    }
    assert commands == BranchCommands(id, rd);
    var titles := adapter.TitleTranslations();
    commands := AppendTitleUpdates(commands, id, titles);
    if |adapter.organizer.labels| > 0 {
      commands := commands + [ImportOrganizerLabels(id, adapter.organizer.labels)];
    }
    assert commands == CommandsFor(id, rd);
    return Ok(commands);
  }

  /** import(): build the command list, then dispatch it; an exception dispatches nothing. */
  method Import(document: DecodedDocument, c: Collaborators, bus: TraceableCommandBus<OrganizerCommand>)
    returns (outcome: Outcome<ImportError>)
    requires DenormalizesWellFormed(c, document.body)
    modifies bus
    ensures OrganizerCommands(document, c).Ok? ==>
      outcome == Pass && bus.recorded == old(bus.recorded) + OrganizerCommands(document, c).value
    ensures OrganizerCommands(document, c).Err? ==>
      outcome == Fail(OrganizerCommands(document, c).error) && bus.recorded == old(bus.recorded)
  {
    var commands := Build(document, c);
    if commands.Err? {
      return Fail(commands.error);
    }
    DispatchAll(bus, commands.value);
    return Pass;
  }

  // ---- properties of the emitted command list ----

  predicate IsTitleUpdate(command: OrganizerCommand) {
    command.UpdateOrganizerTitle?
  }

  predicate IsLabelImport(command: OrganizerCommand) {
    command.ImportOrganizerLabels?
  }

  lemma CommandsOfReading(document: DecodedDocument, c: Collaborators)
    requires DenormalizesWellFormed(c, document.body)
    requires OrganizerCommands(document, c).Ok?
    ensures Read(document, c).Ok?
    ensures OrganizerCommands(document, c).value == CommandsFor(document.id, Read(document, c).value)
  {
  }

  /**
   * One title update per language of the name but the original, plus the
   * branch's own title update for an existing organizer; at most one label
   * import, present exactly when the organizer has labels, and last.
   */
  lemma {:induction false} KindCounts(id: string, rd: Reading)
    requires rd.Valid()
    ensures var commands := CommandsFor(id, rd);
      var name := rd.adapter.organizer.name;
      Count(commands, IsTitleUpdate) == (if rd.aggregateExists then 1 else 0) + |name.entries| - 1 &&
      Count(commands, IsLabelImport) == (if |rd.adapter.organizer.labels| > 0 then 1 else 0) &&
      (|rd.adapter.organizer.labels| > 0 <==> commands[|commands| - 1] == ImportOrganizerLabels(id, rd.adapter.organizer.labels))
  {
    var name := rd.adapter.organizer.name;
    WithoutKeyLength(name.entries, name.originalLanguage);
    BranchKinds(id, rd);
    SegmentCounts(id, BranchCommands(id, rd), rd.adapter.TitleTranslationsOf(), rd.adapter.organizer.labels);
  }

  /** The branch: one command, or two of which one is a title update; never a label import. */
  lemma BranchKinds(id: string, rd: Reading)
    requires rd.Valid()
    ensures var b := BranchCommands(id, rd);
      |b| > 0 && Count(b, IsTitleUpdate) == (if rd.aggregateExists then 1 else 0) &&
      forall i :: 0 <= i < |b| ==> !IsLabelImport(b[i])
  {
    var b := BranchCommands(id, rd);
    if rd.aggregateExists {
      assert b == [b[0]] + [b[1]];
      CountConcat([b[0]], [b[1]], IsTitleUpdate);
    }
  }

  /** Counted over the branch, the title updates and the label import, whatever the branch holds. */
  lemma SegmentCounts(id: string, b: seq<OrganizerCommand>, titles: seq<(Language, string)>, labels: seq<LabelValue>)
    requires |b| > 0 && forall i :: 0 <= i < |b| ==> !IsLabelImport(b[i])
    ensures var commands := b + TitleUpdates(id, titles) + LabelCommands(id, labels);
      Count(commands, IsTitleUpdate) == Count(b, IsTitleUpdate) + |titles| &&
      Count(commands, IsLabelImport) == (if |labels| > 0 then 1 else 0) &&
      (|labels| > 0 <==> commands[|commands| - 1] == ImportOrganizerLabels(id, labels))
  {
    var t := TitleUpdates(id, titles);
    var l := LabelCommands(id, labels);
    CountAll(t, IsTitleUpdate);
    assert Count(t, IsLabelImport) == 0;
    assert Count(b, IsLabelImport) == 0;
    CountConcat(b + t, l, IsTitleUpdate);
    CountConcat(b, t, IsTitleUpdate);
    CountConcat(b + t, l, IsLabelImport);
    CountConcat(b, t, IsLabelImport);
    LabelsLast(id, b, t, labels);
  }

  /** The label import, when there is one, is the last command; otherwise no label import ends the list. */
  lemma LabelsLast(id: string, b: seq<OrganizerCommand>, t: seq<OrganizerCommand>, labels: seq<LabelValue>)
    requires |b| > 0 && forall i :: 0 <= i < |b| ==> !IsLabelImport(b[i])
    requires forall i :: 0 <= i < |t| ==> IsTitleUpdate(t[i])
    ensures var commands := b + t + LabelCommands(id, labels);
      |labels| > 0 <==> commands[|commands| - 1] == ImportOrganizerLabels(id, labels)
  {
    var commands := b + t + LabelCommands(id, labels);
    if |labels| == 0 {
      assert commands == b + t;
      if |t| == 0 {
        assert commands[|commands| - 1] == b[|b| - 1];
      } else {
        assert commands[|commands| - 1] == t[|t| - 1];
      }
    }
  }

  /** A new organizer is created once with its main language, website and original name. */
  lemma NewOrganizerIsCreated(document: DecodedDocument, c: Collaborators)
    requires DenormalizesWellFormed(c, document.body)
    requires OrganizerCommands(document, c).Ok? && c.load(document.id) != Loaded
    ensures var commands := OrganizerCommands(document, c).value;
      var o := c.denormalize(document.body).value;
      |commands| >= 1 && commands[0].CreateOrganizer? && commands[0].id == document.id &&
      commands[0].mainLanguage == o.mainLanguage && o.url == Some(commands[0].website) &&
      o.name.Translation(o.name.originalLanguage) == Some(commands[0].title) &&
      Count(commands, IsTitleUpdate) == |o.name.entries| - 1
  {
    CommandsOfReading(document, c);
    KindCounts(document.id, Read(document, c).value);
  }

  /** An existing organizer gets its original name under its main language, then its website. */
  lemma ExistingOrganizerIsUpdated(document: DecodedDocument, c: Collaborators)
    requires DenormalizesWellFormed(c, document.body)
    requires OrganizerCommands(document, c).Ok? && c.load(document.id) == Loaded
    ensures var commands := OrganizerCommands(document, c).value;
      var o := c.denormalize(document.body).value;
      |commands| >= 2 &&
      commands[0] == UpdateOrganizerTitle(document.id, commands[0].title, o.mainLanguage) &&
      o.name.Translation(o.name.originalLanguage) == Some(commands[0].title) &&
      o.url == Some(commands[1].website) && commands[1] == UpdateWebsite(document.id, commands[1].website) &&
      forall i :: 0 <= i < |commands| ==> !commands[i].CreateOrganizer?
  {
    CommandsOfReading(document, c);
    var rd := Read(document, c).value;
    var b := BranchCommands(document.id, rd);
    var rest: seq<OrganizerCommand> := TitleUpdates(document.id, rd.adapter.TitleTranslationsOf()) +
      LabelCommands(document.id, rd.adapter.organizer.labels);
    assert CommandsFor(document.id, rd) == b + rest;
    assert forall i :: 0 <= i < |rest| ==> !rest[i].CreateOrganizer?;
  }

  /**
   * The k-th of the given translations is updated in place n + k: the title
   * updates start at n and keep the translations' order.
   */
  predicate TitleUpdatesAt(commands: seq<OrganizerCommand>, n: nat, id: string, titles: seq<(Language, string)>) {
    |commands| >= n + |titles| &&
    forall k :: 0 <= k < |titles| ==> commands[n + k] == UpdateOrganizerTitle(id, titles[k].1, titles[k].0)
  }

  /**
   * Every name translation but the original becomes a title update under its
   * own language; they follow the branch (one command for a new organizer,
   * two for an existing one) in the name's order.
   */
  lemma TitleTranslationsAreUpdated(document: DecodedDocument, c: Collaborators)
    requires DenormalizesWellFormed(c, document.body)
    requires OrganizerCommands(document, c).Ok?
    ensures var commands := OrganizerCommands(document, c).value;
      var name := c.denormalize(document.body).value.name;
      (forall l, v :: (l, v) in name.entries && l != name.originalLanguage ==>
        UpdateOrganizerTitle(document.id, v, l) in commands) &&
      TitleUpdatesAt(commands, if c.load(document.id) == Loaded then 2 else 1, document.id, name.WithoutOriginal())
  {
    CommandsOfReading(document, c);
    var rd := Read(document, c).value;
    var id := document.id;
    var name := rd.adapter.organizer.name;
    var titles := rd.adapter.TitleTranslationsOf();
    var commands := CommandsFor(id, rd);
    var before := BranchCommands(id, rd);
    var after := LabelCommands(id, rd.adapter.organizer.labels);
    assert commands == before + TitleUpdates(id, titles) + after;
    forall l, v | (l, v) in name.entries && l != name.originalLanguage
      ensures UpdateOrganizerTitle(id, v, l) in commands
    {
      WithoutKeyMember(name.entries, name.originalLanguage, (l, v));
      var k :| 0 <= k < |titles| && titles[k] == (l, v);
      TitleUpdateAt(id, before, titles, after, k);
    }
    forall k | 0 <= k < |titles|
      ensures commands[|before| + k] == UpdateOrganizerTitle(id, titles[k].1, titles[k].0)
    {
      TitleUpdateAt(id, before, titles, after, k);
    }
  }

  /** The k-th title translation is updated in place |before| + k, whatever surrounds the title updates. */
  lemma TitleUpdateAt(id: string, before: seq<OrganizerCommand>, titles: seq<(Language, string)>,
                      after: seq<OrganizerCommand>, k: nat)
    requires k < |titles|
    ensures |before + TitleUpdates(id, titles) + after| > |before| + k
    ensures (before + TitleUpdates(id, titles) + after)[|before| + k] ==
      UpdateOrganizerTitle(id, titles[k].1, titles[k].0)
    ensures UpdateOrganizerTitle(id, titles[k].1, titles[k].0) in before + TitleUpdates(id, titles) + after
  {
    assert (before + TitleUpdates(id, titles) + after)[|before| + k] == TitleUpdates(id, titles)[k];
  }
}
