/** What an import does with a bare reference that does not resolve: it leaves a record that differs from the
    exported one, and nothing later in the file repairs it. */
module YamlFaults {
  import opened Basics
  import References
  import opened YamlRecords
  import opened YamlRoundTrip
  import opened YamlOwnership

  /** Every record has data, so none looks like one made from a bare reference. */
  ghost predicate WithData(g: Store) {
    forall k :: k in g ==> g[k].data != ""
  }

  /** A record that the export has collected is there, and not as it was. */
  ghost predicate Spoiled(g: Store, st: Store, added: set<Key>) {
    exists x :: x in added && x in g && x in st && st[x] != g[x]
  }

  lemma SpoiledStays(g: Store, st: Store, st1: Store, added: set<Key>, later: set<Key>)
    requires Spoiled(g, st, added) && added <= later && forall x :: x in st && x in added ==> SameRow(st, st1, x)
    ensures Spoiled(g, st1, later)
  {
    var x :| x in added && x in g && x in st && st[x] != g[x];
    assert SameRow(st, st1, x);
  }

  // --- Documents that do not write a record in full keep it ------------------------------------------

  lemma {:induction false} FieldsKeep(s: Setting, st: Store, model: string, fields: seq<Field>, x: Key)
    requires x in st && TimesInFields(fields, x) == 0
    ensures SameRow(st, ProcessFields(s, st, model, fields).0, x)
    decreases fields, 0
  {
    if fields != [] {
      var f := fields[0];
      DocsKeep(s, st, model, f.kind, f.comodel, f.docs, x);
      FieldsKeep(s, ProcessDocs(s, st, model, f.kind, f.comodel, f.docs).0, model, fields[1..], x);
    }
  }

  lemma {:induction false} DocsKeep(s: Setting, st: Store, model: string, kind: Kind, comodel: string, docs: seq<Doc>,
                                    x: Key)
    requires x in st && TimesInDocs(comodel, docs, x) == 0
    ensures SameRow(st, ProcessDocs(s, st, model, kind, comodel, docs).0, x)
    decreases docs, 0
  {
    if docs != [] {
      DocKeeps(s, st, model, kind, comodel, docs[0], x);
      DocsKeep(s, ProcessDoc(s, st, model, kind, comodel, docs[0]).0, model, kind, comodel, docs[1..], x);
    }
  }

  lemma {:induction false} DocKeeps(s: Setting, st: Store, model: string, kind: Kind, comodel: string, doc: Doc, x: Key)
    requires x in st && Times(comodel, doc, x) == 0
    ensures SameRow(st, ProcessDoc(s, st, model, kind, comodel, doc).0, x)
    decreases doc, 2
  {
    var k := Key(comodel, doc.ref);
    if (s.mode != Create || s.resolve(model, comodel)) && k in st {
      ValsKeep(s, st, comodel, doc, x);
      var (st1, vals) := DocVals(s, st, comodel, doc);
      if k in st1 {
        WriteKeeps(st1, k, vals.(ref := None), x);
      }
    } else {
      BuildKeeps(s, st, comodel, doc, kind != One2many, x);
    }
  }

  lemma {:induction false} BuildKeeps(s: Setting, st: Store, comodel: string, doc: Doc, immediately: bool, x: Key)
    requires x in st && Times(comodel, doc, x) == 0
    ensures SameRow(st, Build(s, st, comodel, doc, immediately).0, x)
    decreases doc, 0, 1
  {
    ValsKeep(s, st, comodel, doc, x);
    var (st1, vals) := DocVals(s, st, comodel, doc);
    CreationKeeps(st1, comodel, vals);
    assert SameRow(st1, CreateRecord(st1, comodel, vals).0, x);
  }

  lemma {:induction false} ValsKeep(s: Setting, st: Store, model: string, doc: Doc, x: Key)
    requires x in st && Times(model, doc, x) == 0
    ensures var (st1, vals) := DocVals(s, st, model, doc);
            SameRow(st, st1, x) && (Key(model, doc.ref) == x ==> vals.data.None? && vals.relations == [])
    decreases doc, 0, 0
  {
    if doc.Full? {
      FieldsKeep(s, st, model, doc.fields, x);
    }
  }

  // A write without data and relations changes nothing.
  lemma WriteKeeps(st: Store, k: Key, vals: Vals, x: Key)
    requires k in st && x in st && (k == x ==> vals.data.None? && vals.relations == [])
    ensures SameRow(st, WriteRecord(st, k, vals), x)
  {
    ChildrenKeep(st, vals.relations);
    assert SameRow(st, CreateChildren(st, vals.relations).0, x);
  }

  lemma {:induction false} EntriesKeep(s: Setting, st: Store, entries: seq<Entry>, x: Key)
    requires x in st && TimesInFile(entries, x) == 0
    ensures SameRow(st, Import(s, st, entries), x)
    decreases |entries|
  {
    if entries != [] {
      EntryKeeps(s, st, entries[0], x);
      EntriesKeep(s, ImportEntry(s, st, entries[0]), entries[1..], x);
    }
  }

  lemma EntryKeeps(s: Setting, st: Store, entry: Entry, x: Key)
    requires x in st && Times(entry.model, entry.doc, x) == 0
    ensures SameRow(st, ImportEntry(s, st, entry), x)
  {
    var k := Key(entry.model, entry.doc.ref);
    ValsKeep(s, st, entry.model, entry.doc, x);
    var (st1, vals) := DocVals(s, st, entry.model, entry.doc);
    if s.mode == Update && k in st && k in st1 {
      WriteKeeps(st1, k, vals, x);
    } else {
      CreationKeeps(st1, entry.model, vals);
      assert SameRow(st1, CreateRecord(st1, entry.model, vals).0, x);
    }
  }

  // --- Faulty values -------------------------------------------------------------------------------

  // However the command is run, it spoils a record or links another than `ref`.
  ghost predicate FaultyCommand(g: Store, added: set<Key>, comodel: string, command: Command, ref: string) {
    forall st :: var (st1, target) := RunCommand(st, comodel, command); Spoiled(g, st1, added) || target != ref
  }

  ghost predicate FaultyCommands(g: Store, added: set<Key>, comodel: string, commands: seq<Command>,
                                 refs: seq<string>) {
    forall st :: var (st1, targets) := RunCommands(st, comodel, commands); Spoiled(g, st1, added) || targets != refs
  }

  ghost predicate FaultyRelations(g: Store, added: set<Key>, vals: seq<RelationVals>, relations: seq<Relation>) {
    forall st :: var (st1, made) := CreateChildren(st, vals); Spoiled(g, st1, added) || made != relations
  }

  // A new record from a bare reference takes the place of the exported one, or has another reference.
  lemma BareIsFaulty(g: Store, added: set<Key>, k: Key)
    requires WithData(g) && k in g && k in added
    ensures FaultyCommand(g, added, k.model, New(Vals(Some(k.ref), None, [])), k.ref)
  {
    var vals := Vals(Some(k.ref), None, []);
    forall st
      ensures var (st1, target) := RunCommand(st, k.model, New(vals)); Spoiled(g, st1, added) || target != k.ref
    {
      StubCreated(st, k);
    }
  }

  lemma StubCreated(st: Store, k: Key)
    ensures var (st1, ref) := CreateRecord(st, k.model, Vals(Some(k.ref), None, []));
            ref == k.ref ==> k in st1 && st1[k] == Record("", [])
  {
    var ref := References.Free(Taken(st, k.model), k.ref);
    assert CreateChildren(st[Key(k.model, ref) := Record("", [])], []) == (st[Key(k.model, ref) := Record("", [])], []);
  }

  // Faulty children spoil their record, unless it gets another reference.
  lemma FaultyRecord(g: Store, added: set<Key>, k: Key, data: string, relations: seq<RelationVals>, st: Store)
    requires k in g && k !in added && FaultyRelations(g, added, relations, g[k].relations)
    ensures var (st1, ref) := CreateRecord(st, k.model, Vals(Some(k.ref), Some(data), relations));
            Spoiled(g, st1, added + {k}) || ref != k.ref
  {
    var ref := References.Free(Taken(st, k.model), k.ref);
    if ref == k.ref {
      var (st1, made) := CreateChildren(st[k := Record(data, [])], relations);
      var st2 := st1[k := Record(data, made)];
      assert CreateRecord(st, k.model, Vals(Some(k.ref), Some(data), relations)).0 == st2;
      if made == g[k].relations {
        var x :| x in added && x in g && x in st1 && st1[x] != g[x];
        assert st2[x] == st1[x];
      } else {
        assert st2[k] != g[k];
      }
    }
  }

  lemma HeadFaulty(g: Store, added: set<Key>, later: set<Key>, comodel: string, head: Option<Command>,
                   rest: seq<Command>, refs: seq<string>)
    requires refs != [] && |rest| < |refs| && added <= later
    requires head.Some? ==> FaultyCommand(g, added, comodel, head.value, refs[0])
    ensures FaultyCommands(g, later, comodel, (if head.Some? then [head.value] else []) + rest, refs)
  {
    var commands := (if head.Some? then [head.value] else []) + rest;
    forall st
      ensures var (st2, targets) := RunCommands(st, comodel, commands); Spoiled(g, st2, later) || targets != refs
    {
      if head.Some? {
        assert commands[0] == head.value && commands[1..] == rest;
        var (st1, target) := RunCommand(st, comodel, head.value);
        var (st2, targets) := RunCommands(st1, comodel, rest);
        assert RunCommands(st, comodel, commands).1 == [target] + targets;
        CommandsKeep(st1, comodel, rest);
        if Spoiled(g, st1, added) {
          SpoiledStays(g, st1, st2, added, later);
        } else {
          assert ([target] + targets)[0] != refs[0];
        }
      } else {
        assert commands == rest;
        TargetsCount(st, comodel, rest);
      }
    }
  }

  lemma {:induction false} TargetsCount(st: Store, comodel: string, commands: seq<Command>)
    ensures |RunCommands(st, comodel, commands).1| == |commands|
    decreases |commands|
  {
    if commands != [] {
      TargetsCount(RunCommand(st, comodel, commands[0]).0, comodel, commands[1..]);
    }
  }

  lemma RestFaulty(g: Store, later: set<Key>, comodel: string, head: Command, rest: seq<Command>, refs: seq<string>)
    requires refs != [] && FaultyCommands(g, later, comodel, rest, refs[1..])
    ensures FaultyCommands(g, later, comodel, [head] + rest, refs)
  {
    var commands := [head] + rest;
    forall st
      ensures var (st2, targets) := RunCommands(st, comodel, commands); Spoiled(g, st2, later) || targets != refs
    {
      assert commands[0] == head && commands[1..] == rest;
      var (st1, target) := RunCommand(st, comodel, head);
      var (st2, targets) := RunCommands(st1, comodel, rest);
      assert RunCommands(st, comodel, commands).1 == [target] + targets;
      assert ([target] + targets)[1..] == targets;
    }
  }

  lemma HeadFieldFaulty(g: Store, added: set<Key>, later: set<Key>, head: RelationVals, rest: seq<RelationVals>,
                        relations: seq<Relation>)
    requires relations != [] && added <= later
    requires FaultyCommands(g, added, head.comodel, head.commands, relations[0].targets)
    ensures FaultyRelations(g, later, [head] + rest, relations)
  {
    var vals := [head] + rest;
    forall st
      ensures var (st2, made) := CreateChildren(st, vals); Spoiled(g, st2, later) || made != relations
    {
      assert vals[0] == head && vals[1..] == rest;
      var (st1, targets) := RunCommands(st, head.comodel, head.commands);
      var (st2, made) := CreateChildren(st1, rest);
      var first := Relation(head.field, head.kind, head.comodel, targets);
      assert CreateChildren(st, vals).1 == [first] + made;
      ChildrenKeep(st1, rest);
      if Spoiled(g, st1, added) {
        SpoiledStays(g, st1, st2, added, later);
      } else {
        assert ([first] + made)[0] != relations[0];
      }
    }
  }

  lemma RestFieldsFaulty(g: Store, later: set<Key>, head: RelationVals, rest: seq<RelationVals>,
                         relations: seq<Relation>)
    requires relations != [] && FaultyRelations(g, later, rest, relations[1..])
    ensures FaultyRelations(g, later, [head] + rest, relations)
  {
    var vals := [head] + rest;
    forall st
      ensures var (st2, made) := CreateChildren(st, vals); Spoiled(g, st2, later) || made != relations
    {
      assert vals[0] == head && vals[1..] == rest;
      var (st1, targets) := RunCommands(st, head.comodel, head.commands);
      var (st2, made) := CreateChildren(st1, rest);
      var first := Relation(head.field, head.kind, head.comodel, targets);
      assert CreateChildren(st, vals).1 == [first] + made;
      assert ([first] + made)[1..] == made;
    }
  }

  // What has been made is apart from what the rest of an export makes.
  lemma NextApart(g: Store, rank: Key -> nat, st: Store, added: set<Key>, made: set<Key>, own: set<Key>, bound: int,
                  added1: set<Key>, made1: set<Key>, own1: set<Key>, bound1: int, later: set<Key>)
    requires Collects(g, rank, added, added1, made, own, bound) && Collects(g, rank, added1, later, made1, own1, bound1)
    requires st.Keys !! later - added
    ensures st.Keys !! added1 - added && added1 <= later
    ensures var st1 := st + Part(g, made); st1.Keys == st.Keys + made && st1.Keys !! later - added1
  {
  }

  // --- A document that does not resolve --------------------------------------------------------------

  // A document leaves a spoiled record, or all it makes and a command that will not do.
  ghost predicate Fails(g: Store, made: Store, later: set<Key>, comodel: string, r: (Store, Option<Command>),
                        ref: string) {
    Spoiled(g, r.0, later) || (r.0 == made && (r.1.Some? ==> FaultyCommand(g, later, comodel, r.1.value, ref)))
  }

  lemma BareFails(s: Setting, g: Store, k: Key, added: set<Key>, st: Store, model: string, kind: Kind)
    requires WithData(g) && k in g && k in added && !Resolves(s, model, kind, k.model, Bare(k.ref), st.Keys)
    ensures Fails(g, st, added, k.model, ProcessDoc(s, st, model, kind, k.model, Bare(k.ref)), k.ref)
  {
    var doc := Bare(k.ref);
    var vals := Vals(Some(k.ref), None, []);
    assert DocVals(s, st, k.model, doc) == (st, vals);
    BareIsFaulty(g, added, k);
    assert Build(s, st, k.model, doc, false) == (st, Some(New(vals)));
    if k !in st {
      StubCreated(st, k);
      CreateWithFreeBare(st, k);
      var (st1, ref) := CreateRecord(st, k.model, vals);
      assert Build(s, st, k.model, doc, true) == (st1, Some(Link(ref)));
      assert st1[k] != g[k];
      assert Spoiled(g, st1, added);
    }
  }

  lemma CreateWithFreeBare(st: Store, k: Key)
    requires k !in st
    ensures CreateRecord(st, k.model, Vals(Some(k.ref), None, [])).1 == k.ref
  {
    assert k.ref !in Taken(st, k.model);
  }

  lemma {:induction false} DocFails(s: Setting, g: Store, rank: Key -> nat, k: Key, added: set<Key>, st: Store,
                                    model: string, kind: Kind)
    requires Acyclic(g, rank) && WithData(g) && k in g
    requires st.Keys !! Export(g, rank, k, added).1 - added
    requires !Resolves(s, model, kind, k.model, Export(g, rank, k, added).0, st.Keys)
    ensures var (doc, later) := Export(g, rank, k, added);
            Fails(g, st + Part(g, Now(kind, k.model, doc)), later, k.model,
                  ProcessDoc(s, st, model, kind, k.model, doc), k.ref)
    decreases rank(k), 3, 0
  {
    var (doc, later) := Export(g, rank, k, added);
    if k in added {
      BareFails(s, g, k, added, st, model, kind);
      assert st + Part(g, {}) == st;
    } else {
      FullFails(s, g, rank, k, added, st, model, kind);
    }
  }

  lemma {:induction false} FullFails(s: Setting, g: Store, rank: Key -> nat, k: Key, added: set<Key>, st: Store,
                                     model: string, kind: Kind)
    requires Acyclic(g, rank) && WithData(g) && k in g && k !in added
    requires st.Keys !! Export(g, rank, k, added).1 - added
    requires !Resolves(s, model, kind, k.model, Export(g, rank, k, added).0, st.Keys)
    ensures var (doc, later) := Export(g, rank, k, added);
            Fails(g, st + Part(g, Now(kind, k.model, doc)), later, k.model,
                  ProcessDoc(s, st, model, kind, k.model, doc), k.ref)
    decreases rank(k), 2, |g[k].relations| + 2
  {
    var (doc, later) := Export(g, rank, k, added);
    ExportCollects(g, rank, k, added, kind);
    ValsFail(s, g, rank, k, added, st);
    var (st1, vals) := DocVals(s, st, k.model, doc);
    var built := Build(s, st, k.model, doc, kind != One2many);
    assert k !in st;
    assert ProcessDoc(s, st, model, kind, k.model, doc) == built;
    if Spoiled(g, st1, later - {k}) {
      CreationKeeps(st1, k.model, vals);
      SpoiledStays(g, st1, built.0, later - {k}, later);
    } else {
      NewFails(g, k, later, st1, vals, kind);
      assert st + Part(g, NowFields(doc.fields)) == st1;
      assert kind == One2many ==> Now(kind, k.model, doc) == NowFields(doc.fields) + {} == NowFields(doc.fields);
    }
  }

  // A record whose values are faulty is spoiled when it is made, at once or with its parent.
  lemma NewFails(g: Store, k: Key, later: set<Key>, st: Store, vals: Vals, kind: Kind)
    requires k in g && k in later && k !in st && vals.ref == Some(k.ref) && vals.data.Some?
    requires FaultyRelations(g, later - {k}, vals.relations, g[k].relations)
    ensures Spoiled(g, CreateRecord(st, k.model, vals).0, later)
    ensures FaultyCommand(g, later, k.model, New(vals), k.ref)
  {
    assert later - {k} + {k} == later;
    assert k.ref !in Taken(st, k.model);
    FaultyRecord(g, later - {k}, k, vals.data.value, vals.relations, st);
    forall st1
      ensures var (st2, target) := RunCommand(st1, k.model, New(vals)); Spoiled(g, st2, later) || target != k.ref
    {
      FaultyRecord(g, later - {k}, k, vals.data.value, vals.relations, st1);
    }
  }

  lemma {:induction false} ValsFail(s: Setting, g: Store, rank: Key -> nat, k: Key, added: set<Key>, st: Store)
    requires Acyclic(g, rank) && WithData(g) && k in g && k !in added
    requires st.Keys !! Export(g, rank, k, added).1 - added
    requires !ResolvesFields(s, k.model, Export(g, rank, k, added).0.fields, st.Keys)
    ensures var (doc, later) := Export(g, rank, k, added);
            var (st1, vals) := DocVals(s, st, k.model, doc);
            && vals.ref == Some(k.ref) && vals.data == Some(g[k].data)
            && (Spoiled(g, st1, later - {k})
                || (st1 == st + Part(g, NowFields(doc.fields))
                    && FaultyRelations(g, later - {k}, vals.relations, g[k].relations)))
    decreases rank(k), 2, |g[k].relations| + 1
  {
    assert Below(g, rank, g[k].relations, rank(k));
    ExportCollects(g, rank, k, added, One2many);
    FieldsCollect(g, rank, g[k].relations, rank(k), added);
    var fieldsLater := ExportFields(g, rank, g[k].relations, rank(k), added).1;
    assert Export(g, rank, k, added).1 - {k} == fieldsLater;
    FieldsFail(s, g, rank, g[k].relations, rank(k), added, st, k.model);
  }

  lemma {:induction false} FieldsFail(s: Setting, g: Store, rank: Key -> nat, relations: seq<Relation>, bound: nat,
                                      added: set<Key>, st: Store, model: string)
    requires Acyclic(g, rank) && Below(g, rank, relations, bound) && WithData(g)
    requires st.Keys !! ExportFields(g, rank, relations, bound, added).1 - added
    requires !ResolvesFields(s, model, ExportFields(g, rank, relations, bound, added).0, st.Keys)
    ensures var (fields, later) := ExportFields(g, rank, relations, bound, added);
            var (st1, vals) := ProcessFields(s, st, model, fields);
            || Spoiled(g, st1, later)
            || (st1 == st + Part(g, NowFields(fields)) && FaultyRelations(g, later, vals, relations))
    decreases bound, 2, |relations|, 1
  {
    hide FaultyCommands, FaultyRelations, Spoiled, Collects;
    var r := relations[0];
    assert TargetsBelow(g, rank, r.comodel, r.targets, bound);
    var (docs, added1) := ExportTargets(g, rank, r.comodel, r.targets, bound, added);
    var (rest, later) := ExportFields(g, rank, relations[1..], bound, added1);
    var f := Field(r.field, r.kind, r.comodel, docs);
    assert ([f] + rest)[0] == f && ([f] + rest)[1..] == rest;
    TargetsCollect(g, rank, r.kind, r.comodel, r.targets, bound, added);
    FieldsCollect(g, rank, relations[1..], bound, added1);
    NextApart(g, rank, st, added, NowField(f), OwnField(f), bound,
              added1, NowFields(rest), OwnFields(rest), bound, later);
    var (st1, commands) := ProcessDocs(s, st, model, r.kind, r.comodel, docs);
    if !ResolvesDocs(s, model, r.kind, r.comodel, docs, st.Keys) {
      TargetsFail(s, g, rank, r.kind, r.comodel, r.targets, bound, added, st, model);
    } else {
      TargetsBuilt(s, g, rank, r.kind, r.comodel, r.targets, bound, added, st, model);
    }
    if Spoiled(g, st1, added1) {
      FieldsStaySpoiled(s, g, rank, relations[1..], bound, added1, st1, model);
    } else {
      assert st1 == st + Part(g, NowField(f)) && st1.Keys == st.Keys + NowField(f);
      PartUnion(g, st, NowField(f), NowFields(rest));
      RestOfFields(s, g, rank, relations, bound, added1, st1, model,
                   RelationVals(f.field, f.kind, f.comodel, commands));
    }
  }

  lemma {:induction false} RestOfFields(s: Setting, g: Store, rank: Key -> nat, relations: seq<Relation>, bound: nat,
                                        added: set<Key>, st: Store, model: string, head: RelationVals)
    requires Acyclic(g, rank) && relations != [] && Below(g, rank, relations[1..], bound) && WithData(g)
    requires st.Keys !! ExportFields(g, rank, relations[1..], bound, added).1 - added
    requires || FaultyCommands(g, added, head.comodel, head.commands, relations[0].targets)
             || !ResolvesFields(s, model, ExportFields(g, rank, relations[1..], bound, added).0, st.Keys)
    ensures var (rest, later) := ExportFields(g, rank, relations[1..], bound, added);
            var (st1, vals) := ProcessFields(s, st, model, rest);
            || Spoiled(g, st1, later)
            || (st1 == st + Part(g, NowFields(rest)) && FaultyRelations(g, later, [head] + vals, relations))
    decreases bound, 2, |relations|, 0
  {
    hide FaultyCommands, FaultyRelations, Spoiled;
    var (rest, later) := ExportFields(g, rank, relations[1..], bound, added);
    FieldsCollect(g, rank, relations[1..], bound, added);
    var (st1, vals) := ProcessFields(s, st, model, rest);
    if !ResolvesFields(s, model, rest, st.Keys) {
      FieldsFail(s, g, rank, relations[1..], bound, added, st, model);
      if !Spoiled(g, st1, later) {
        RestFieldsFaulty(g, later, head, vals, relations);
      }
    } else {
      FieldsBuilt(s, g, rank, relations[1..], bound, added, st, model);
      HeadFieldFaulty(g, added, later, head, vals, relations);
    }
  }

  lemma FieldsStaySpoiled(s: Setting, g: Store, rank: Key -> nat, relations: seq<Relation>, bound: nat, added: set<Key>,
                          st: Store, model: string)
    requires Acyclic(g, rank) && Below(g, rank, relations, bound) && Spoiled(g, st, added)
    ensures var (fields, later) := ExportFields(g, rank, relations, bound, added);
            Spoiled(g, ProcessFields(s, st, model, fields).0, later)
  {
    var (fields, later) := ExportFields(g, rank, relations, bound, added);
    FieldsCollect(g, rank, relations, bound, added);
    forall x | x in st && x in added
      ensures SameRow(st, ProcessFields(s, st, model, fields).0, x)
    {
      FieldsOnce(g, rank, relations, bound, added, x);
      FieldsKeep(s, st, model, fields, x);
    }
    SpoiledStays(g, st, ProcessFields(s, st, model, fields).0, added, later);
  }

  lemma TargetsStaySpoiled(s: Setting, g: Store, rank: Key -> nat, kind: Kind, comodel: string, refs: seq<string>,
                           bound: nat, added: set<Key>, st: Store, model: string)
    requires Acyclic(g, rank) && TargetsBelow(g, rank, comodel, refs, bound) && Spoiled(g, st, added)
    ensures var (docs, later) := ExportTargets(g, rank, comodel, refs, bound, added);
            Spoiled(g, ProcessDocs(s, st, model, kind, comodel, docs).0, later)
  {
    var (docs, later) := ExportTargets(g, rank, comodel, refs, bound, added);
    TargetsCollect(g, rank, kind, comodel, refs, bound, added);
    forall x | x in st && x in added
      ensures SameRow(st, ProcessDocs(s, st, model, kind, comodel, docs).0, x)
    {
      TargetsOnce(g, rank, comodel, refs, bound, added, x);
      DocsKeep(s, st, model, kind, comodel, docs, x);
    }
    SpoiledStays(g, st, ProcessDocs(s, st, model, kind, comodel, docs).0, added, later);
  }

  lemma {:induction false} CommandsCount(s: Setting, st: Store, model: string, kind: Kind, comodel: string,
                                         docs: seq<Doc>)
    ensures |ProcessDocs(s, st, model, kind, comodel, docs).1| <= |docs|
    decreases |docs|
  {
    if docs != [] {
      CommandsCount(s, ProcessDoc(s, st, model, kind, comodel, docs[0]).0, model, kind, comodel, docs[1..]);
    }
  }

  lemma {:induction false} DocsCount(g: Store, rank: Key -> nat, comodel: string, refs: seq<string>, bound: nat,
                                     added: set<Key>)
    requires Acyclic(g, rank) && TargetsBelow(g, rank, comodel, refs, bound)
    ensures |ExportTargets(g, rank, comodel, refs, bound, added).0| == |refs|
    decreases |refs|
  {
    if refs != [] {
      DocsCount(g, rank, comodel, refs[1..], bound, Export(g, rank, Key(comodel, refs[0]), added).1);
    }
  }

  lemma {:induction false} TargetsFail(s: Setting, g: Store, rank: Key -> nat, kind: Kind, comodel: string,
                                       refs: seq<string>, bound: nat, added: set<Key>, st: Store, model: string)
    requires Acyclic(g, rank) && TargetsBelow(g, rank, comodel, refs, bound) && WithData(g)
    requires st.Keys !! ExportTargets(g, rank, comodel, refs, bound, added).1 - added
    requires !ResolvesDocs(s, model, kind, comodel, ExportTargets(g, rank, comodel, refs, bound, added).0, st.Keys)
    ensures var (docs, later) := ExportTargets(g, rank, comodel, refs, bound, added);
            var (st1, commands) := ProcessDocs(s, st, model, kind, comodel, docs);
            || Spoiled(g, st1, later)
            || (st1 == st + Part(g, NowDocs(kind, comodel, docs)) && FaultyCommands(g, later, comodel, commands, refs))
    decreases bound, 1, |refs|, 1
  {
    hide FaultyCommand, FaultyCommands, Spoiled, Collects;
    var k := Key(comodel, refs[0]);
    var (doc, added1) := Export(g, rank, k, added);
    var (docs, later) := ExportTargets(g, rank, comodel, refs[1..], bound, added1);
    assert ([doc] + docs)[0] == doc && ([doc] + docs)[1..] == docs;
    ExportCollects(g, rank, k, added, kind);
    TargetsCollect(g, rank, kind, comodel, refs[1..], bound, added1);
    NextApart(g, rank, st, added, Now(kind, comodel, doc), OwnDoc(kind, comodel, doc), rank(k) + 1,
              added1, NowDocs(kind, comodel, docs), if kind == One2many then OwnDocs(comodel, docs) else {}, bound,
              later);
    var (st1, head) := ProcessDoc(s, st, model, kind, comodel, doc);
    if !Resolves(s, model, kind, comodel, doc, st.Keys) {
      DocFails(s, g, rank, k, added, st, model, kind);
    } else {
      DocBuilt(s, g, rank, k, added, st, model, kind);
    }
    if Spoiled(g, st1, added1) {
      TargetsStaySpoiled(s, g, rank, kind, comodel, refs[1..], bound, added1, st1, model);
    } else {
      assert st1 == st + Part(g, Now(kind, comodel, doc)) && st1.Keys == st.Keys + Now(kind, comodel, doc);
      PartUnion(g, st, Now(kind, comodel, doc), NowDocs(kind, comodel, docs));
      RestOfTargets(s, g, rank, kind, comodel, refs, bound, added1, st1, model, head);
    }
  }

  // The head has failed and spoiled nothing yet, or the rest fails.
  lemma {:induction false} RestOfTargets(s: Setting, g: Store, rank: Key -> nat, kind: Kind, comodel: string,
                                         refs: seq<string>,
                                         bound: nat, added: set<Key>, st: Store, model: string, head: Option<Command>)
    requires Acyclic(g, rank) && refs != [] && TargetsBelow(g, rank, comodel, refs[1..], bound) && WithData(g)
    requires st.Keys !! ExportTargets(g, rank, comodel, refs[1..], bound, added).1 - added
    requires || head.None? || FaultyCommand(g, added, comodel, head.value, refs[0])
             || !ResolvesDocs(s, model, kind, comodel,
                              ExportTargets(g, rank, comodel, refs[1..], bound, added).0, st.Keys)
    ensures var (docs, later) := ExportTargets(g, rank, comodel, refs[1..], bound, added);
            var (st1, rest) := ProcessDocs(s, st, model, kind, comodel, docs);
            || Spoiled(g, st1, later)
            || (&& st1 == st + Part(g, NowDocs(kind, comodel, docs))
                && FaultyCommands(g, later, comodel, (if head.Some? then [head.value] else []) + rest, refs))
    decreases bound, 1, |refs|, 0
  {
    hide FaultyCommand, FaultyCommands, Spoiled;
    var (docs, later) := ExportTargets(g, rank, comodel, refs[1..], bound, added);
    var (st1, rest) := ProcessDocs(s, st, model, kind, comodel, docs);
    TargetsCollect(g, rank, kind, comodel, refs[1..], bound, added);
    CommandsCount(s, st, model, kind, comodel, docs);
    DocsCount(g, rank, comodel, refs[1..], bound, added);
    if !ResolvesDocs(s, model, kind, comodel, docs, st.Keys) {
      TargetsFail(s, g, rank, kind, comodel, refs[1..], bound, added, st, model);
    } else {
      TargetsBuilt(s, g, rank, kind, comodel, refs[1..], bound, added, st, model);
    }
    if !Spoiled(g, st1, later) {
      if head.None? || FaultyCommand(g, added, comodel, head.value, refs[0]) {
        HeadFaulty(g, added, later, comodel, head, rest, refs);
      } else {
        RestFaulty(g, later, comodel, head.value, rest, refs);
      }
    }
  }

  // --- Files -----------------------------------------------------------------------------------------

  lemma EntryFails(s: Setting, g: Store, rank: Key -> nat, k: Key, added: set<Key>)
    requires Acyclic(g, rank) && WithData(g) && k in g && k !in added && added <= g.Keys
    requires !Resolves(s, "", Many2one, k.model, Export(g, rank, k, added).0, added)
    ensures var (doc, later) := Export(g, rank, k, added);
            Spoiled(g, ImportEntry(s, Part(g, added), Entry(k.model, doc)), later)
  {
    var (doc, later) := Export(g, rank, k, added);
    var st := Part(g, added);
    assert st.Keys == added;
    ExportCollects(g, rank, k, added, Many2one);
    ValsFail(s, g, rank, k, added, st);
    var (st1, vals) := DocVals(s, st, k.model, doc);
    var created := CreateRecord(st1, k.model, vals).0;
    assert ImportEntry(s, st, Entry(k.model, doc)) == created;
    if Spoiled(g, st1, later - {k}) {
      CreationKeeps(st1, k.model, vals);
      SpoiledStays(g, st1, created, later - {k}, later);
    } else {
      NewFails(g, k, later, st1, vals, Many2one);
    }
  }

  lemma {:induction false} FileFails(s: Setting, g: Store, rank: Key -> nat, keys: seq<Key>, added: set<Key>)
    requires Acyclic(g, rank) && WithData(g) && (forall k :: k in keys ==> k in g) && added <= g.Keys
    requires !ResolvesFile(s, ExportAll(g, rank, keys, added).0, added)
    ensures var (entries, later) := ExportAll(g, rank, keys, added);
            Spoiled(g, Import(s, Part(g, added), entries), later)
    decreases |keys|
  {
    var k := keys[0];
    var (doc, added1) := Export(g, rank, k, added);
    var (rest, later) := ExportAll(g, rank, keys[1..], added1);
    ExportCollects(g, rank, k, added, Many2one);
    if k in added {
      FileFails(s, g, rank, keys[1..], added1);
    } else {
      var entries := ExportAll(g, rank, keys, added).0;
      assert entries[0] == Entry(k.model, doc) && entries[1..] == rest;
      assert added + Now(Many2one, k.model, doc) == added1;
      if Resolves(s, "", Many2one, k.model, doc, added) {
        EntryImported(s, g, rank, k, added);
        FileFails(s, g, rank, keys[1..], added1);
      } else {
        EntryFails(s, g, rank, k, added);
        FileStaysSpoiled(s, g, rank, keys[1..], added1, ImportEntry(s, Part(g, added), entries[0]));
      }
    }
  }

  lemma FileStaysSpoiled(s: Setting, g: Store, rank: Key -> nat, keys: seq<Key>, added: set<Key>, st: Store)
    requires Acyclic(g, rank) && (forall k :: k in keys ==> k in g) && Spoiled(g, st, added)
    ensures var (entries, later) := ExportAll(g, rank, keys, added); Spoiled(g, Import(s, st, entries), later)
  {
    var (entries, later) := ExportAll(g, rank, keys, added);
    FileOnce(g, rank, keys, added, Key("", ""));
    forall x | x in st && x in added
      ensures SameRow(st, Import(s, st, entries), x)
    {
      FileOnce(g, rank, keys, added, x);
      EntriesKeep(s, st, entries, x);
    }
    SpoiledStays(g, st, Import(s, st, entries), added, later);
  }

  /** Main result, in every import mode: importing an exported file into an empty database gives exactly the records
      that can be reached from the selection, with their data and their relations, if and only if the bare references
      of the file resolve. */
  lemma RoundTripIff(s: Setting, g: Store, rank: Key -> nat, keys: seq<Key>)
    requires Acyclic(g, rank) && WithData(g) && forall k :: k in keys ==> k in g
    ensures var entries := ExportAll(g, rank, keys, {}).0;
            var rebuilt := Import(s, map[], entries);
            (Reachable(g, keys, rebuilt.Keys) && forall k :: k in rebuilt ==> k in g && rebuilt[k] == g[k])
            <==> ResolvesFile(s, entries, {})
  {
    if ResolvesFile(s, ExportAll(g, rank, keys, {}).0, {}) {
      RoundTrip(s, g, rank, keys);
    } else {
      assert Part(g, {}) == map[];
      FileFails(s, g, rank, keys, {});
    }
  }

  // --- A file that resolves in no mode ---------------------------------------------------------------

  const PARENT := Key("m", "p")
  const CHILD := Key("m", "c")

  // A record that owns another, and then refers to it.
  function OwnedThenReferred(): Store {
    map[PARENT := Record("p", [Relation("children", One2many, "m", ["c"]), Relation("child", Many2one, "m", ["c"])]),
        CHILD := Record("c", [])]
  }

  function OwnedThenReferredRank(k: Key): nat {
    if k == PARENT then 1 else 0
  }

  function ParentDoc(): Doc {
    Full("p", "p", [Field("children", One2many, "m", [Full("c", "c", [])]), Field("child", Many2one, "m", [Bare("c")])])
  }

  lemma OwnedThenReferredAcyclic()
    ensures Acyclic(OwnedThenReferred(), OwnedThenReferredRank) && WithData(OwnedThenReferred())
  {
  }

  lemma ChildExport()
    requires Acyclic(OwnedThenReferred(), OwnedThenReferredRank)
    ensures Export(OwnedThenReferred(), OwnedThenReferredRank, CHILD, {}) == (Full("c", "c", []), {CHILD})
  {
    assert OwnedThenReferred()[CHILD].relations == [] && OwnedThenReferredRank(CHILD) == 0;
    assert ExportFields(OwnedThenReferred(), OwnedThenReferredRank, [], 0, {}) == ([], {});
    assert {} + {CHILD} == {CHILD};
  }

  lemma OwnedThenReferredExport()
    ensures Acyclic(OwnedThenReferred(), OwnedThenReferredRank) && WithData(OwnedThenReferred())
    ensures ExportAll(OwnedThenReferred(), OwnedThenReferredRank, [PARENT], {}).0 == [Entry("m", ParentDoc())]
  {
    var g := OwnedThenReferred();
    var rank := OwnedThenReferredRank;
    var relations := g[PARENT].relations;
    OwnedThenReferredAcyclic();
    ChildExport();
    OneTarget(g, rank, "m", "c", 1, {});
    OneTarget(g, rank, "m", "c", 1, {CHILD});
    OneField(g, rank, relations[1], 1, {CHILD});
    assert relations[1..] == [relations[1]];
    var fields := ParentDoc().fields;
    assert [fields[0]] + [fields[1]] == fields;
    assert ExportFields(g, rank, relations, 1, {}) == (fields, {CHILD});
    assert Export(g, rank, PARENT, {}).0 == ParentDoc();
    assert [PARENT][1..] == [];
    assert [Entry("m", ParentDoc())] + [] == [Entry("m", ParentDoc())];
  }

  /** The child is made with its parent, so the reference to it comes too early whatever the mode: the parent does not
      come back. */
  lemma OwnedThenReferredFails(s: Setting)
    ensures Acyclic(OwnedThenReferred(), OwnedThenReferredRank)
    ensures var rebuilt := Import(s, map[], ExportAll(OwnedThenReferred(), OwnedThenReferredRank, [PARENT], {}).0);
            !(Reachable(OwnedThenReferred(), [PARENT], rebuilt.Keys)
              && forall k :: k in rebuilt ==> k in OwnedThenReferred() && rebuilt[k] == OwnedThenReferred()[k])
  {
    OwnedThenReferredExport();
    var fields := ParentDoc().fields;
    assert NowField(fields[0]) == {} by {
      assert NowDocs(One2many, "m", [Full("c", "c", [])][1..]) == {};
    }
    assert !ResolvesField(s, "m", fields[1], {});
    assert {} + NowField(fields[0]) == {} && fields[1..][0] == fields[1];
    assert !ResolvesFields(s, "m", fields, {});
    RoundTripIff(s, OwnedThenReferred(), OwnedThenReferredRank, [PARENT]);
  }
}
