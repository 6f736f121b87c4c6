/** Importing into a database that has records already: what skipping, updating and creating do to them. */
module YamlExisting {
  import opened Basics
  import References
  import opened YamlRecords
  import opened YamlRoundTrip
  import opened YamlOwnership
  import opened YamlFaults

  // --- Records stay ------------------------------------------------------------------------------------

  lemma {:induction false} FieldsGrow(s: Setting, st: Store, model: string, fields: seq<Field>)
    ensures st.Keys <= ProcessFields(s, st, model, fields).0.Keys
    decreases fields, 0
  {
    if fields != [] {
      var f := fields[0];
      DocsGrow(s, st, model, f.kind, f.comodel, f.docs);
      FieldsGrow(s, ProcessDocs(s, st, model, f.kind, f.comodel, f.docs).0, model, fields[1..]);
    }
  }

  lemma {:induction false} DocsGrow(s: Setting, st: Store, model: string, kind: Kind, comodel: string, docs: seq<Doc>)
    ensures st.Keys <= ProcessDocs(s, st, model, kind, comodel, docs).0.Keys
    decreases docs, 0
  {
    if docs != [] {
      DocGrows(s, st, model, kind, comodel, docs[0]);
      DocsGrow(s, ProcessDoc(s, st, model, kind, comodel, docs[0]).0, model, kind, comodel, docs[1..]);
    }
  }

  lemma {:induction false} DocGrows(s: Setting, st: Store, model: string, kind: Kind, comodel: string, doc: Doc)
    ensures st.Keys <= ProcessDoc(s, st, model, kind, comodel, doc).0.Keys
    decreases doc, 2
  {
    if (s.mode != Create || s.resolve(model, comodel)) && Key(comodel, doc.ref) in st {
      ValsGrow(s, st, comodel, doc);
      var (st1, vals) := DocVals(s, st, comodel, doc);
      ChildrenGrow(st1, vals.(ref := None).relations);
    } else {
      BuildGrows(s, st, comodel, doc, kind != One2many);
    }
  }

  lemma {:induction false} BuildGrows(s: Setting, st: Store, comodel: string, doc: Doc, immediately: bool)
    ensures st.Keys <= Build(s, st, comodel, doc, immediately).0.Keys
    decreases doc, 1
  {
    ValsGrow(s, st, comodel, doc);
    var (st1, vals) := DocVals(s, st, comodel, doc);
    CreationGrows(st1, comodel, vals);
  }

  lemma {:induction false} ValsGrow(s: Setting, st: Store, model: string, doc: Doc)
    ensures st.Keys <= DocVals(s, st, model, doc).0.Keys
    decreases doc, 0
  {
    if doc.Full? {
      FieldsGrow(s, st, model, doc.fields);
    }
  }

  lemma CreationGrows(st: Store, model: string, vals: Vals)
    ensures var (st1, ref) := CreateRecord(st, model, vals);
            st.Keys <= st1.Keys && Key(model, ref) in st1 && Key(model, ref) !in st
  {
    CreationKeeps(st, model, vals);
    assert forall x :: x in st ==> SameRow(st, CreateRecord(st, model, vals).0, x);
  }

  lemma ChildrenGrow(st: Store, relations: seq<RelationVals>)
    ensures st.Keys <= CreateChildren(st, relations).0.Keys
  {
    ChildrenKeep(st, relations);
    assert forall x :: x in st ==> SameRow(st, CreateChildren(st, relations).0, x);
  }

  lemma EntryGrows(s: Setting, st: Store, entry: Entry)
    ensures st.Keys <= ImportEntry(s, st, entry).Keys
  {
    ValsGrow(s, st, entry.model, entry.doc);
    var (st1, vals) := DocVals(s, st, entry.model, entry.doc);
    CreationGrows(st1, entry.model, vals);
    ChildrenGrow(st1, vals.relations);
  }

  lemma {:induction false} ImportGrows(s: Setting, st: Store, entries: seq<Entry>)
    ensures st.Keys <= Import(s, st, entries).Keys
    decreases |entries|
  {
    if entries != [] {
      EntryGrows(s, st, entries[0]);
      ImportGrows(s, ImportEntry(s, st, entries[0]), entries[1..]);
    }
  }

  lemma {:induction false} ImportInParts(s: Setting, st: Store, before: seq<Entry>, after: seq<Entry>)
    ensures Import(s, st, before + after) == Import(s, Import(s, st, before), after)
    decreases |before|
  {
    if before == [] {
      assert before + after == after;
    } else {
      assert (before + after)[1..] == before[1..] + after;
      ImportInParts(s, ImportEntry(s, st, before[0]), before[1..], after);
    }
  }

  lemma OneImported(s: Setting, st: Store, entry: Entry)
    ensures Import(s, st, [entry]) == ImportEntry(s, st, entry)
  {
    assert [entry][1..] == [];
  }

  // --- Skipping ----------------------------------------------------------------------------------------

  // How often record `k` is written out in full behind the fields of an entry.
  function TimesInside(entry: Entry, k: Key): nat {
    match entry.doc
    case Bare(_) => 0
    case Full(_, _, fields) => TimesInFields(fields, k)
  }

  /** Main result: skipping, a record that exists stays as it is if it is written out at the top level of the file
      only. */
  lemma {:induction false} SkippedStays(s: Setting, st: Store, entries: seq<Entry>, k: Key)
    requires s.mode == Skip && k in st && forall n :: 0 <= n < |entries| ==> TimesInside(entries[n], k) == 0
    ensures k in Import(s, st, entries) && Import(s, st, entries)[k] == st[k]
    decreases |entries|
  {
    if entries != [] {
      var entry := entries[0];
      if Key(entry.model, entry.doc.ref) != k {
        assert Times(entry.model, entry.doc, k) == 0;
        EntryKeeps(s, st, entry, k);
      }
      assert SameRow(st, ImportEntry(s, st, entry), k);
      forall n | 0 <= n < |entries[1..]|
        ensures TimesInside(entries[1..][n], k) == 0
      {
        assert entries[1..][n] == entries[n + 1];
      }
      SkippedStays(s, ImportEntry(s, st, entry), entries[1..], k);
    }
  }

  // --- Updating: the data ------------------------------------------------------------------------------

  // The data of record `k` after a document, if it was `data` before: records behind fields come first.
  function DataAfter(model: string, doc: Doc, k: Key, data: string): string
    decreases doc, 0
  {
    match doc
    case Bare(_) => data
    case Full(ref, own, fields) => if Key(model, ref) == k then own else DataAfterFields(fields, k, data)
  }

  function DataAfterFields(fields: seq<Field>, k: Key, data: string): string
    decreases fields, 0
  {
    if fields == [] then data
    else DataAfterFields(fields[1..], k, DataAfterDocs(fields[0].comodel, fields[0].docs, k, data))
  }

  function DataAfterDocs(comodel: string, docs: seq<Doc>, k: Key, data: string): string
    decreases docs, 0
  {
    if docs == [] then data else DataAfterDocs(comodel, docs[1..], k, DataAfter(comodel, docs[0], k, data))
  }

  /** The data of the last document of record `k` in the file, in full and at any depth. */
  function LastData(entries: seq<Entry>, k: Key, data: string): string
    decreases |entries|
  {
    if entries == [] then data
    else LastData(entries[1..], k, DataAfter(entries[0].model, entries[0].doc, k, data))
  }

  ghost predicate HasData(st: Store, k: Key, data: string) {
    k in st && st[k].data == data
  }

  lemma {:induction false} FieldsData(s: Setting, st: Store, model: string, fields: seq<Field>, k: Key)
    requires s.mode != Create && k in st
    ensures HasData(ProcessFields(s, st, model, fields).0, k, DataAfterFields(fields, k, st[k].data))
    decreases fields, 0
  {
    if fields != [] {
      var f := fields[0];
      DocsData(s, st, model, f.kind, f.comodel, f.docs, k);
      FieldsData(s, ProcessDocs(s, st, model, f.kind, f.comodel, f.docs).0, model, fields[1..], k);
    }
  }

  lemma {:induction false} DocsData(s: Setting, st: Store, model: string, kind: Kind, comodel: string, docs: seq<Doc>,
                                    k: Key)
    requires s.mode != Create && k in st
    ensures HasData(ProcessDocs(s, st, model, kind, comodel, docs).0, k, DataAfterDocs(comodel, docs, k, st[k].data))
    decreases docs, 0
  {
    if docs != [] {
      DocData(s, st, model, kind, comodel, docs[0], k);
      DocsData(s, ProcessDoc(s, st, model, kind, comodel, docs[0]).0, model, kind, comodel, docs[1..], k);
    }
  }

  lemma {:induction false} DocData(s: Setting, st: Store, model: string, kind: Kind, comodel: string, doc: Doc, k: Key)
    requires s.mode != Create && k in st
    ensures HasData(ProcessDoc(s, st, model, kind, comodel, doc).0, k, DataAfter(comodel, doc, k, st[k].data))
    decreases doc, 2
  {
    var key := Key(comodel, doc.ref);
    if key in st {
      ValsData(s, st, comodel, doc, k);
      ValsGrow(s, st, comodel, doc);
      var (st1, vals) := DocVals(s, st, comodel, doc);
      WriteData(st1, key, vals.(ref := None), k);
    } else {
      BuildData(s, st, comodel, doc, kind != One2many, k);
    }
  }

  lemma {:induction false} BuildData(s: Setting, st: Store, comodel: string, doc: Doc, immediately: bool, k: Key)
    requires s.mode != Create && k in st && Key(comodel, doc.ref) !in st
    ensures HasData(Build(s, st, comodel, doc, immediately).0, k, DataAfter(comodel, doc, k, st[k].data))
    decreases doc, 1
  {
    ValsData(s, st, comodel, doc, k);
    var (st1, vals) := DocVals(s, st, comodel, doc);
    CreationKeeps(st1, comodel, vals);
    assert SameRow(st1, CreateRecord(st1, comodel, vals).0, k);
  }

  // The fields of a document first; its own data comes with its values.
  lemma {:induction false} ValsData(s: Setting, st: Store, model: string, doc: Doc, k: Key)
    requires s.mode != Create && k in st
    ensures var (st1, vals) := DocVals(s, st, model, doc);
            && vals.data == (if doc.Full? then Some(doc.data) else None)
            && k in st1
            && DataAfter(model, doc, k, st[k].data)
               == if Key(model, doc.ref) == k && doc.Full? then doc.data else st1[k].data
    decreases doc, 0
  {
    if doc.Full? {
      FieldsData(s, st, model, doc.fields, k);
    }
  }

  lemma WriteData(st: Store, key: Key, vals: Vals, k: Key)
    requires key in st && k in st
    ensures HasData(WriteRecord(st, key, vals), k, if key == k && vals.data.Some? then vals.data.value else st[k].data)
  {
    ChildrenKeep(st, vals.relations);
    assert SameRow(st, CreateChildren(st, vals.relations).0, k);
    assert SameRow(st, CreateChildren(st, vals.relations).0, key);
  }

  /** The entry of a record that is not skipped: every record that exists gets the data of its last document in it. */
  lemma EntryData(s: Setting, st: Store, entry: Entry, k: Key)
    requires s.mode != Create && k in st && (s.mode == Skip ==> Key(entry.model, entry.doc.ref) !in st)
    ensures HasData(Import(s, st, [entry]), k, DataAfter(entry.model, entry.doc, k, st[k].data))
  {
    OneImported(s, st, entry);
    var key := Key(entry.model, entry.doc.ref);
    ValsData(s, st, entry.model, entry.doc, k);
    ValsGrow(s, st, entry.model, entry.doc);
    var (st1, vals) := DocVals(s, st, entry.model, entry.doc);
    if key in st {
      WriteData(st1, key, vals, k);
    } else {
      CreationKeeps(st1, entry.model, vals);
      assert SameRow(st1, CreateRecord(st1, entry.model, vals).0, k);
    }
  }

  /** Main result: updating, a record that exists has afterwards the data of its last document in the file. */
  lemma {:induction false} UpdatedData(s: Setting, st: Store, entries: seq<Entry>, k: Key)
    requires s.mode == Update && k in st
    ensures HasData(Import(s, st, entries), k, LastData(entries, k, st[k].data))
    decreases |entries|
  {
    if entries != [] {
      EntryData(s, st, entries[0], k);
      OneImported(s, st, entries[0]);
      UpdatedData(s, ImportEntry(s, st, entries[0]), entries[1..], k);
    }
  }

  // --- Updating: the links -----------------------------------------------------------------------------

  /** A document stands for record `t`: the one that it names if that exists in `st0`, else a new one. */
  ghost predicate Stands(st0: Store, st: Store, comodel: string, doc: Doc, t: string) {
    if Key(comodel, doc.ref) in st0 then t == doc.ref else Key(comodel, t) !in st0 && Key(comodel, t) in st
  }

  ghost predicate StandsLater(st0: Store, st: Store, comodel: string, doc: Doc, command: Command) {
    match command
    case Link(t) => Stands(st0, st, comodel, doc, t)
    case New(_) => Key(comodel, doc.ref) !in st0
  }

  // A command for each document of a field.
  ghost predicate AllStandLater(st0: Store, st: Store, comodel: string, docs: seq<Doc>, commands: seq<Command>) {
    && |commands| == |docs|
    && forall j :: 0 <= j < |docs| ==> StandsLater(st0, st, comodel, docs[j], commands[j])
  }

  // A target for each.
  ghost predicate AllStand(st0: Store, st: Store, comodel: string, docs: seq<Doc>, targets: seq<string>) {
    && |targets| == |docs|
    && forall j :: 0 <= j < |docs| ==> Stands(st0, st, comodel, docs[j], targets[j])
  }

  lemma DocStands(s: Setting, st0: Store, st: Store, model: string, kind: Kind, comodel: string, doc: Doc)
    requires s.mode != Create && st0.Keys <= st.Keys
    ensures var (st1, command) := ProcessDoc(s, st, model, kind, comodel, doc);
            command.Some? && StandsLater(st0, st1, comodel, doc, command.value)
  {
    DocGrows(s, st, model, kind, comodel, doc);
    if Key(comodel, doc.ref) !in st {
      BuildStands(s, st0, st, comodel, doc, kind != One2many);
    }
  }

  lemma BuildStands(s: Setting, st0: Store, st: Store, comodel: string, doc: Doc, immediately: bool)
    requires st0.Keys <= st.Keys && Key(comodel, doc.ref) !in st0
    ensures var (st1, command) := Build(s, st, comodel, doc, immediately);
            command.Some? && StandsLater(st0, st1, comodel, doc, command.value)
  {
    ValsGrow(s, st, comodel, doc);
    var (st1, vals) := DocVals(s, st, comodel, doc);
    CreationGrows(st1, comodel, vals);
  }

  lemma {:induction false} DocsStand(s: Setting, st0: Store, st: Store, model: string, kind: Kind, comodel: string,
                                     docs: seq<Doc>)
    requires s.mode != Create && st0.Keys <= st.Keys
    ensures var (st1, commands) := ProcessDocs(s, st, model, kind, comodel, docs);
            AllStandLater(st0, st1, comodel, docs, commands)
    decreases |docs|
  {
    if docs != [] {
      var (st1, command) := ProcessDoc(s, st, model, kind, comodel, docs[0]);
      DocStands(s, st0, st, model, kind, comodel, docs[0]);
      DocGrows(s, st, model, kind, comodel, docs[0]);
      DocsStand(s, st0, st1, model, kind, comodel, docs[1..]);
      DocsGrow(s, st1, model, kind, comodel, docs[1..]);
    }
  }

  // The values of a field, and later its relation.
  ghost predicate ValuesFor(st0: Store, st: Store, f: Field, r: RelationVals) {
    r.field == f.field && r.kind == f.kind && r.comodel == f.comodel
    && AllStandLater(st0, st, f.comodel, f.docs, r.commands)
  }

  ghost predicate RelationFor(st0: Store, st: Store, f: Field, r: Relation) {
    r.field == f.field && r.kind == f.kind && r.comodel == f.comodel && AllStand(st0, st, f.comodel, f.docs, r.targets)
  }

  lemma StillStandLater(st0: Store, st: Store, st1: Store, comodel: string, docs: seq<Doc>, commands: seq<Command>)
    requires AllStandLater(st0, st, comodel, docs, commands) && st.Keys <= st1.Keys
    ensures AllStandLater(st0, st1, comodel, docs, commands)
  {
  }

  lemma {:induction false} FieldsStand(s: Setting, st0: Store, st: Store, model: string, fields: seq<Field>)
    requires s.mode != Create && st0.Keys <= st.Keys
    ensures var (st1, rs) := ProcessFields(s, st, model, fields);
            |rs| == |fields| && forall i :: 0 <= i < |fields| ==> ValuesFor(st0, st1, fields[i], rs[i])
    decreases |fields|
  {
    if fields != [] {
      var f := fields[0];
      var (st1, commands) := ProcessDocs(s, st, model, f.kind, f.comodel, f.docs);
      DocsStand(s, st0, st, model, f.kind, f.comodel, f.docs);
      DocsGrow(s, st, model, f.kind, f.comodel, f.docs);
      FieldsStand(s, st0, st1, model, fields[1..]);
      FieldsGrow(s, st1, model, fields[1..]);
      StillStandLater(st0, st1, ProcessFields(s, st1, model, fields[1..]).0, f.comodel, f.docs, commands);
    }
  }

  lemma {:induction false} CommandsStand(st0: Store, st: Store, comodel: string, docs: seq<Doc>,
                                         commands: seq<Command>)
    requires st0.Keys <= st.Keys && AllStandLater(st0, st, comodel, docs, commands)
    ensures var (st1, targets) := RunCommands(st, comodel, commands);
            st.Keys <= st1.Keys && AllStand(st0, st1, comodel, docs, targets)
    decreases |docs|
  {
    if docs != [] {
      var (st1, ref) := RunCommand(st, comodel, commands[0]);
      assert StandsLater(st0, st, comodel, docs[0], commands[0]);
      if commands[0].New? {
        CreationGrows(st, comodel, commands[0].vals);
      }
      assert forall j :: 0 <= j < |docs[1..]| ==> StandsLater(st0, st, comodel, docs[1..][j], commands[1..][j]);
      CommandsStand(st0, st1, comodel, docs[1..], commands[1..]);
    }
  }

  lemma {:induction false} ChildrenStand(st0: Store, st: Store, fields: seq<Field>, rs: seq<RelationVals>)
    requires st0.Keys <= st.Keys && |rs| == |fields|
    requires forall i :: 0 <= i < |fields| ==> ValuesFor(st0, st, fields[i], rs[i])
    ensures var (st1, relations) := CreateChildren(st, rs);
            && st.Keys <= st1.Keys && |relations| == |fields|
            && forall i :: 0 <= i < |fields| ==> RelationFor(st0, st1, fields[i], relations[i])
    decreases |fields|
  {
    if fields != [] {
      assert ValuesFor(st0, st, fields[0], rs[0]);
      CommandsStand(st0, st, fields[0].comodel, fields[0].docs, rs[0].commands);
      var st1 := RunCommands(st, rs[0].comodel, rs[0].commands).0;
      forall i | 0 <= i < |fields[1..]|
        ensures ValuesFor(st0, st1, fields[1..][i], rs[1..][i])
      {
        assert ValuesFor(st0, st, fields[i + 1], rs[i + 1]);
        StillStandLater(st0, st, st1, fields[i + 1].comodel, fields[i + 1].docs, rs[i + 1].commands);
      }
      ChildrenStand(st0, st1, fields[1..], rs[1..]);
    }
  }

  // What a field of a record links.
  function Targets(relations: seq<Relation>, field: string): seq<string> {
    if relations == [] then []
    else if relations[0].field == field then relations[0].targets
    else Targets(relations[1..], field)
  }

  /** From `before` to `after` the links `targets` have come in: to one record only, or to more of them. */
  ghost predicate Linked(kind: Kind, before: seq<string>, targets: seq<string>, after: seq<string>) {
    if kind == Many2one then after == targets
    else before <= after && forall t :: t in after <==> t in before || t in targets
  }

  lemma {:induction false} MissingLinks(have: seq<string>, refs: seq<string>, all: seq<string>)
    requires forall t :: t in have ==> t in all
    ensures forall t :: t in all + Missing(have, refs) <==> t in all || t in refs
  {
    if refs != [] {
      MissingLinks(have, refs[1..], all);
    }
  }

  lemma {:induction false} MergedOne(relations: seq<Relation>, r: Relation, field: string)
    ensures if field == r.field then
              Linked(r.kind, Targets(relations, field), r.targets, Targets(MergeOne(relations, r), field))
            else Targets(MergeOne(relations, r), field) == Targets(relations, field)
  {
    if relations != [] {
      if relations[0].field == r.field {
        MissingLinks(relations[0].targets, r.targets, relations[0].targets);
      } else {
        MergedOne(relations[1..], r, field);
      }
    }
  }

  lemma {:induction false} Merged(old_: seq<Relation>, new_: seq<Relation>, field: string)
    requires forall i, j :: 0 <= i < j < |new_| ==> new_[i].field != new_[j].field
    ensures forall i :: 0 <= i < |new_| && new_[i].field == field ==>
              Linked(new_[i].kind, Targets(old_, field), new_[i].targets, Targets(Merge(old_, new_), field))
    ensures (forall i :: 0 <= i < |new_| ==> new_[i].field != field) ==>
              Targets(Merge(old_, new_), field) == Targets(old_, field)
    decreases |new_|
  {
    if new_ != [] {
      MergedOne(old_, new_[0], field);
      Merged(MergeOne(old_, new_[0]), new_[1..], field);
    }
  }

  /** Field `f` of a record has been updated: what its documents stand for is linked. */
  ghost predicate FieldUpdated(st0: Store, st: Store, f: Field, before: Record, after: Record) {
    exists targets ::
      && AllStand(st0, st, f.comodel, f.docs, targets)
      && Linked(f.kind, Targets(before.relations, f.field), targets, Targets(after.relations, f.field))
  }

  /** Record `k` has been updated from a document: it has its data, the fields that it names link what it says, and the
      other fields are as they were. */
  ghost predicate Updated(st: Store, after: Store, k: Key, doc: Doc)
    requires doc.Full? && k in st
  {
    && k in after && after[k].data == doc.data
    && (forall i :: 0 <= i < |doc.fields| ==> FieldUpdated(st, after, doc.fields[i], st[k], after[k]))
    && forall x :: (forall i :: 0 <= i < |doc.fields| ==> doc.fields[i].field != x) ==>
         Targets(after[k].relations, x) == Targets(st[k].relations, x)
  }

  lemma WriteUpdates(s: Setting, st: Store, model: string, doc: Doc, vals: Vals)
    requires s.mode != Create && doc.Full? && Key(model, doc.ref) in st
    requires TimesInFields(doc.fields, Key(model, doc.ref)) == 0
    requires forall i, j :: 0 <= i < j < |doc.fields| ==> doc.fields[i].field != doc.fields[j].field
    requires vals.data == DocVals(s, st, model, doc).1.data && vals.relations == DocVals(s, st, model, doc).1.relations
    ensures var k, st1 := Key(model, doc.ref), DocVals(s, st, model, doc).0;
            k in st1 && Updated(st, WriteRecord(st1, k, vals), k, doc)
  {
    var k, fields := Key(model, doc.ref), doc.fields;
    FieldsKeep(s, st, model, fields, k);
    FieldsStand(s, st, st, model, fields);
    FieldsGrow(s, st, model, fields);
    var (st1, rs) := ProcessFields(s, st, model, fields);
    assert SameRow(st, st1, k);
    ChildrenStand(st, st1, fields, rs);
    ChildrenKeep(st1, rs);
    var (st2, relations) := CreateChildren(st1, rs);
    assert SameRow(st1, st2, k);
    WrittenLinks(st, st2, WriteRecord(st1, k, vals), k, fields, relations);
  }

  /** Main result: updating a record that exists, its many2one fields come to point where the entry says, the other
      links that the entry names are added to those there were, and fields that it does not name stay. */
  lemma UpdatedLinks(s: Setting, st: Store, model: string, doc: Doc)
    requires s.mode == Update && doc.Full? && Key(model, doc.ref) in st
    requires TimesInFields(doc.fields, Key(model, doc.ref)) == 0
    requires forall i, j :: 0 <= i < j < |doc.fields| ==> doc.fields[i].field != doc.fields[j].field
    ensures Updated(st, Import(s, st, [Entry(model, doc)]), Key(model, doc.ref), doc)
  {
    OneImported(s, st, Entry(model, doc));
    WriteUpdates(s, st, model, doc, DocVals(s, st, model, doc).1);
  }

  /** The same for a record behind a field, also when records that exist are to be skipped: only top-level entries
      are. */
  lemma RelatedUpdated(s: Setting, st: Store, model: string, comodel: string, doc: Doc, immediately: bool)
    requires s.mode != Create && doc.Full? && Key(comodel, doc.ref) in st
    requires TimesInFields(doc.fields, Key(comodel, doc.ref)) == 0
    requires forall i, j :: 0 <= i < j < |doc.fields| ==> doc.fields[i].field != doc.fields[j].field
    ensures var (after, command) := UpdateOrCreate(s, st, model, comodel, doc, immediately);
            command == Some(Link(doc.ref)) && Updated(st, after, Key(comodel, doc.ref), doc)
  {
    WriteUpdates(s, st, comodel, doc, DocVals(s, st, comodel, doc).1.(ref := None));
  }

  lemma WrittenLinks(st: Store, st2: Store, after: Store, k: Key, fields: seq<Field>, relations: seq<Relation>)
    requires k in st && k in after && |relations| == |fields| && st2.Keys <= after.Keys
    requires forall i :: 0 <= i < |fields| ==> RelationFor(st, st2, fields[i], relations[i])
    requires forall i, j :: 0 <= i < j < |fields| ==> fields[i].field != fields[j].field
    requires after[k].relations == Merge(st[k].relations, relations)
    ensures forall i :: 0 <= i < |fields| ==> FieldUpdated(st, after, fields[i], st[k], after[k])
    ensures forall x :: (forall i :: 0 <= i < |fields| ==> fields[i].field != x) ==>
              Targets(after[k].relations, x) == Targets(st[k].relations, x)
  {
    assert forall i :: 0 <= i < |fields| ==> relations[i].field == fields[i].field;
    forall i | 0 <= i < |fields|
      ensures FieldUpdated(st, after, fields[i], st[k], after[k])
    {
      assert RelationFor(st, st2, fields[i], relations[i]);
      Merged(st[k].relations, relations, fields[i].field);
      assert AllStand(st, after, fields[i].comodel, fields[i].docs, relations[i].targets);
    }
    forall x | forall i :: 0 <= i < |fields| ==> fields[i].field != x
      ensures Targets(after[k].relations, x) == Targets(st[k].relations, x)
    {
      Merged(st[k].relations, relations, x);
    }
  }

  /** What follows in the file leaves a record alone that it does not write out: its last full entry decides. */
  lemma LastEntryDecides(s: Setting, st: Store, before: seq<Entry>, entry: Entry, rest: seq<Entry>, k: Key)
    requires k in Import(s, Import(s, st, before), [entry]) && TimesInFile(rest, k) == 0
    ensures var file := before + [entry] + rest;
            k in Import(s, st, file) && Import(s, st, file)[k] == Import(s, Import(s, st, before), [entry])[k]
  {
    ImportInParts(s, st, before + [entry], rest);
    ImportInParts(s, st, before, [entry]);
    EntriesKeep(s, Import(s, st, before + [entry]), rest, k);
  }

  // --- How many records are added ------------------------------------------------------------------------

  // The documents behind fields, at any depth.
  function DocsIn(fields: seq<Field>): nat
    decreases fields, 0
  {
    if fields == [] then 0 else DocsInAll(fields[0].docs) + DocsIn(fields[1..])
  }

  function DocsInAll(docs: seq<Doc>): nat
    decreases docs, 0
  {
    if docs == [] then 0 else 1 + DocsBehind(docs[0]) + DocsInAll(docs[1..])
  }

  function DocsBehind(doc: Doc): nat
    decreases doc, 0
  {
    if doc.Bare? then 0 else DocsIn(doc.fields)
  }

  // The records that values will make later.
  function News(relations: seq<RelationVals>): nat
    decreases relations, 0
  {
    if relations == [] then 0 else NewsIn(relations[0].commands) + News(relations[1..])
  }

  function NewsIn(commands: seq<Command>): nat
    decreases commands, 0
  {
    if commands == [] then 0 else NewIn(commands[0]) + NewsIn(commands[1..])
  }

  function NewIn(command: Command): nat
    decreases command, 0
  {
    if command.Link? then 0 else 1 + News(command.vals.relations)
  }

  lemma {:induction false} CreationCounts(st: Store, model: string, vals: Vals)
    ensures |CreateRecord(st, model, vals).0| == |st| + 1 + News(vals.relations)
    decreases vals, 1
  {
    var ref := References.Free(Taken(st, model), if vals.ref.Some? then vals.ref.value else model);
    var k := Key(model, ref);
    assert k !in st;
    var st1 := st[k := Record(if vals.data.Some? then vals.data.value else "", [])];
    assert st1.Keys == st.Keys + {k};
    ChildrenCount(st1, vals.relations);
    ChildrenGrow(st1, vals.relations);
    var (st2, relations) := CreateChildren(st1, vals.relations);
    SameCount(st2, k, Record(if vals.data.Some? then vals.data.value else "", relations));
  }

  lemma SameCount(st: Store, k: Key, r: Record)
    requires k in st
    ensures |st[k := r]| == |st|
  {
    assert st[k := r].Keys == st.Keys;
  }

  lemma {:induction false} ChildrenCount(st: Store, relations: seq<RelationVals>)
    ensures |CreateChildren(st, relations).0| == |st| + News(relations)
    decreases relations, 1
  {
    if relations != [] {
      CommandsCountIn(st, relations[0].comodel, relations[0].commands);
      ChildrenCount(RunCommands(st, relations[0].comodel, relations[0].commands).0, relations[1..]);
    }
  }

  lemma {:induction false} CommandsCountIn(st: Store, comodel: string, commands: seq<Command>)
    ensures |RunCommands(st, comodel, commands).0| == |st| + NewsIn(commands)
    decreases commands, 1
  {
    if commands != [] {
      CommandCounts(st, comodel, commands[0]);
      CommandsCountIn(RunCommand(st, comodel, commands[0]).0, comodel, commands[1..]);
    }
  }

  lemma {:induction false} CommandCounts(st: Store, comodel: string, command: Command)
    ensures |RunCommand(st, comodel, command).0| == |st| + NewIn(command)
    decreases command, 1
  {
    if command.New? {
      CreationCounts(st, comodel, command.vals);
    }
  }

  lemma {:induction false} FieldsCount(s: Setting, st: Store, model: string, fields: seq<Field>)
    ensures var (st1, rs) := ProcessFields(s, st, model, fields); |st1| + News(rs) <= |st| + DocsIn(fields)
    decreases fields, 0
  {
    if fields != [] {
      var f := fields[0];
      DocsCountIn(s, st, model, f.kind, f.comodel, f.docs);
      FieldsCount(s, ProcessDocs(s, st, model, f.kind, f.comodel, f.docs).0, model, fields[1..]);
    }
  }

  lemma {:induction false} DocsCountIn(s: Setting, st: Store, model: string, kind: Kind, comodel: string,
                                       docs: seq<Doc>)
    ensures var (st1, commands) := ProcessDocs(s, st, model, kind, comodel, docs);
            |st1| + NewsIn(commands) <= |st| + DocsInAll(docs)
    decreases docs, 0
  {
    if docs != [] {
      var (st1, command) := ProcessDoc(s, st, model, kind, comodel, docs[0]);
      var rest := ProcessDocs(s, st1, model, kind, comodel, docs[1..]).1;
      DocCounts(s, st, model, kind, comodel, docs[0]);
      DocsCountIn(s, st1, model, kind, comodel, docs[1..]);
      assert command.Some? ==> ([command.value] + rest)[1..] == rest;
      assert [] + rest == rest;
    }
  }

  lemma {:induction false} DocCounts(s: Setting, st: Store, model: string, kind: Kind, comodel: string, doc: Doc)
    ensures var (st1, command) := ProcessDoc(s, st, model, kind, comodel, doc);
            |st1| + (if command.Some? then NewIn(command.value) else 0) <= |st| + 1 + DocsBehind(doc)
    decreases doc, 2
  {
    if (s.mode != Create || s.resolve(model, comodel)) && Key(comodel, doc.ref) in st {
      ValsCount(s, st, comodel, doc);
      ValsGrow(s, st, comodel, doc);
      var (st1, vals) := DocVals(s, st, comodel, doc);
      WriteCounts(st1, Key(comodel, doc.ref), vals.(ref := None));
    } else {
      BuildCounts(s, st, comodel, doc, kind != One2many);
    }
  }

  lemma {:induction false} BuildCounts(s: Setting, st: Store, comodel: string, doc: Doc, immediately: bool)
    ensures var (st1, command) := Build(s, st, comodel, doc, immediately);
            |st1| + (if command.Some? then NewIn(command.value) else 0) <= |st| + 1 + DocsBehind(doc)
    decreases doc, 1
  {
    ValsCount(s, st, comodel, doc);
    var (st1, vals) := DocVals(s, st, comodel, doc);
    CreationCounts(st1, comodel, vals);
  }

  lemma {:induction false} ValsCount(s: Setting, st: Store, model: string, doc: Doc)
    ensures var (st1, vals) := DocVals(s, st, model, doc); |st1| + News(vals.relations) <= |st| + DocsBehind(doc)
    decreases doc, 0
  {
    if doc.Full? {
      FieldsCount(s, st, model, doc.fields);
    }
  }

  lemma WriteCounts(st: Store, k: Key, vals: Vals)
    requires k in st
    ensures |WriteRecord(st, k, vals)| == |st| + News(vals.relations)
  {
    ChildrenCount(st, vals.relations);
    ChildrenGrow(st, vals.relations);
    var (st1, relations) := CreateChildren(st, vals.relations);
    SameCount(st1, k, Record(if vals.data.Some? then vals.data.value else st1[k].data,
                             Merge(st1[k].relations, relations)));
  }

  /** An entry that updates a record adds none for it: at most one for each document behind its fields. */
  lemma UpdateAddsNone(s: Setting, st: Store, entry: Entry)
    requires s.mode == Update && Key(entry.model, entry.doc.ref) in st
    ensures |Import(s, st, [entry])| <= |st| + DocsBehind(entry.doc)
  {
    OneImported(s, st, entry);
    ValsCount(s, st, entry.model, entry.doc);
    ValsGrow(s, st, entry.model, entry.doc);
    var (st1, vals) := DocVals(s, st, entry.model, entry.doc);
    WriteCounts(st1, Key(entry.model, entry.doc.ref), vals);
  }

  // --- Creating ----------------------------------------------------------------------------------------

  /** Main result: creating, an entry makes a record of its own with its data, under a reference that was free, beside
      any record that has the entry's reference; and records that the entry does not write out behind its fields
      stay as they are. */
  lemma CreatedBeside(s: Setting, st: Store, entry: Entry) returns (ref: string)
    requires s.mode == Create && entry.doc.Full?
    ensures var after, made := Import(s, st, [entry]), Key(entry.model, ref);
            && made !in st && HasData(after, made, entry.doc.data)
            && |st| < |after| && st.Keys <= after.Keys
            && forall k :: k in st && TimesInside(entry, k) == 0 ==> k in after && after[k] == st[k]
  {
    OneImported(s, st, entry);
    var (st1, vals) := DocVals(s, st, entry.model, entry.doc);
    ValsGrow(s, st, entry.model, entry.doc);
    CreationGrows(st1, entry.model, vals);
    CreationKeeps(st1, entry.model, vals);
    ref := CreateRecord(st1, entry.model, vals).1;
    var after := Import(s, st, [entry]);
    forall k | k in st && TimesInside(entry, k) == 0
      ensures k in after && after[k] == st[k]
    {
      FieldsKeep(s, st, entry.model, entry.doc.fields, k);
      assert SameRow(st, st1, k) && SameRow(st1, after, k);
    }
    SmallerStore(st, after, Key(entry.model, ref));
  }

  lemma SmallerStore(st: Store, after: Store, k: Key)
    requires st.Keys <= after.Keys && k in after && k !in st
    ensures |st| < |after|
  {
    SubsetSize(st.Keys + {k}, after.Keys);
  }

  /** Over a whole file: each entry makes its own record, and a record that is written out at the top level only stays
      as it is. */
  lemma {:induction false} CreatedAll(s: Setting, st: Store, entries: seq<Entry>)
    requires s.mode == Create && forall n :: 0 <= n < |entries| ==> entries[n].doc.Full?
    ensures |Import(s, st, entries)| >= |st| + |entries|
    ensures forall k :: k in st && (forall n :: 0 <= n < |entries| ==> TimesInside(entries[n], k) == 0) ==>
              k in Import(s, st, entries) && Import(s, st, entries)[k] == st[k]
    decreases |entries|
  {
    if entries != [] {
      var st1 := ImportEntry(s, st, entries[0]);
      var ref := CreatedBeside(s, st, entries[0]);
      OneImported(s, st, entries[0]);
      CreatedAll(s, st1, entries[1..]);
      assert forall n :: 0 <= n < |entries[1..]| ==> entries[1..][n] == entries[n + 1];
      forall k | k in st && forall n :: 0 <= n < |entries| ==> TimesInside(entries[n], k) == 0
        ensures k in Import(s, st, entries) && Import(s, st, entries)[k] == st[k]
      {
        assert k in st1 && st1[k] == st[k];
      }
    }
  }
}
