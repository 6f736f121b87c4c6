/** Exporting records and importing the file into an empty database rebuilds what was exported. */
module YamlRoundTrip {
  import opened Basics
  import References
  import opened YamlRecords

  // --- What a document makes, and when -------------------------------------------------------

  // Records made when the record of `doc` is: itself and its new one2many children.
  function Own(model: string, doc: Doc): set<Key>
    decreases doc
  {
    match doc
    case Bare(_) => {}
    case Full(ref, _, fields) => {Key(model, ref)} + OwnFields(fields)
  }

  function OwnFields(fields: seq<Field>): set<Key>
    decreases fields
  {
    if fields == [] then {} else OwnField(fields[0]) + OwnFields(fields[1..])
  }

  function OwnField(field: Field): set<Key>
    decreases field
  {
    if field.kind == One2many then OwnDocs(field.comodel, field.docs) else {}
  }

  function OwnDocs(comodel: string, docs: seq<Doc>): set<Key>
    decreases docs
  {
    if docs == [] then {} else Own(comodel, docs[0]) + OwnDocs(comodel, docs[1..])
  }

  // Records made while the document is being processed: its own later, if it stands in a one2many field.
  function Now(kind: Kind, model: string, doc: Doc): set<Key>
    decreases doc
  {
    match doc
    case Bare(_) => {}
    case Full(_, _, fields) => NowFields(fields) + (if kind == One2many then {} else Own(model, doc))
  }

  function NowFields(fields: seq<Field>): set<Key>
    decreases fields
  {
    if fields == [] then {} else NowField(fields[0]) + NowFields(fields[1..])
  }

  function NowField(field: Field): set<Key>
    decreases field
  {
    NowDocs(field.kind, field.comodel, field.docs)
  }

  function NowDocs(kind: Kind, comodel: string, docs: seq<Doc>): set<Key>
    decreases docs
  {
    if docs == [] then {} else Now(kind, comodel, docs[0]) + NowDocs(kind, comodel, docs[1..])
  }

  /** The bare references of a document can be resolved, given the records `have`: each names a record made
      before, and it does not stand in a one2many field where the import would duplicate it. */
  predicate Resolves(s: Setting, model: string, kind: Kind, comodel: string, doc: Doc, have: set<Key>)
    decreases doc
  {
    match doc
    case Bare(ref) => Key(comodel, ref) in have && (kind == One2many && s.mode == Create ==> s.resolve(model, comodel))
    case Full(_, _, fields) => ResolvesFields(s, comodel, fields, have)
  }

  predicate ResolvesFields(s: Setting, model: string, fields: seq<Field>, have: set<Key>)
    decreases fields
  {
    fields != [] ==>
      && ResolvesField(s, model, fields[0], have)
      && ResolvesFields(s, model, fields[1..], have + NowField(fields[0]))
  }

  predicate ResolvesField(s: Setting, model: string, field: Field, have: set<Key>)
    decreases field
  {
    ResolvesDocs(s, model, field.kind, field.comodel, field.docs, have)
  }

  predicate ResolvesDocs(s: Setting, model: string, kind: Kind, comodel: string, docs: seq<Doc>, have: set<Key>)
    decreases docs
  {
    docs != [] ==>
      && Resolves(s, model, kind, comodel, docs[0], have)
      && ResolvesDocs(s, model, kind, comodel, docs[1..], have + Now(kind, comodel, docs[0]))
  }

  predicate ResolvesFile(s: Setting, entries: seq<Entry>, have: set<Key>) {
    entries != [] ==>
      && Resolves(s, "", Many2one, entries[0].model, entries[0].doc, have)
      && ResolvesFile(s, entries[1..], have + Now(Many2one, entries[0].model, entries[0].doc))
  }

  // The values that a document stands for.
  function ValsOf(doc: Doc): Vals
    decreases doc, 0
  {
    match doc
    case Bare(ref) => Vals(Some(ref), None, [])
    case Full(ref, data, fields) => Vals(Some(ref), Some(data), RelationsOf(fields))
  }

  function RelationsOf(fields: seq<Field>): seq<RelationVals>
    decreases fields, 0
  {
    if fields == [] then [] else [RelationOf(fields[0])] + RelationsOf(fields[1..])
  }

  function RelationOf(field: Field): RelationVals
    decreases field, 0
  {
    RelationVals(field.field, field.kind, field.comodel, CommandsOf(field.kind, field.docs))
  }

  function CommandsOf(kind: Kind, docs: seq<Doc>): seq<Command>
    decreases docs, 0
  {
    if docs == [] then [] else [CommandOf(kind, docs[0])] + CommandsOf(kind, docs[1..])
  }

  function CommandOf(kind: Kind, doc: Doc): Command
    decreases doc, 1
  {
    if kind == One2many && doc.Full? then New(ValsOf(doc)) else Link(doc.ref)
  }

  // --- What an export collects ---------------------------------------------------------------

  ghost predicate Closed(g: Store, s: set<Key>) {
    forall k, r, t :: k in s && k in g && r in g[k].relations && t in r.targets ==> Key(r.comodel, t) in s
  }

  // `later` is `made` and `own` on top of `before`, all of it below `bound`.
  ghost predicate Collects(g: Store, rank: Key -> nat, before: set<Key>, later: set<Key>, made: set<Key>,
                           own: set<Key>, bound: int) {
    && before <= later
    && made + own == later - before && made !! own
    && (forall x :: x in later - before ==> x in g && rank(x) < bound)
    && (Closed(g, before) ==> Closed(g, later))
  }

  lemma {:induction false} ExportCollects(g: Store, rank: Key -> nat, k: Key, added: set<Key>, kind: Kind)
    requires Acyclic(g, rank) && k in g
    ensures var (doc, later) := Export(g, rank, k, added);
            && Collects(g, rank, added, later, Now(kind, k.model, doc),
                        if kind == One2many then Own(k.model, doc) else {}, rank(k) + 1)
            && k in later
    ensures var (doc, later) := Export(g, rank, k, added);
            doc.Full? ==>
              && Collects(g, rank, added, later - {k}, NowFields(doc.fields), OwnFields(doc.fields), rank(k))
              && k !in NowFields(doc.fields) + OwnFields(doc.fields)
    decreases rank(k), 3, 0
  {
    if k !in added {
      assert Below(g, rank, g[k].relations, rank(k));
      FieldsCollect(g, rank, g[k].relations, rank(k), added);
      var (fields, later) := ExportFields(g, rank, g[k].relations, rank(k), added);
      assert k !in later;
      assert (later + {k}) - {k} == later;
    }
  }

  lemma {:induction false} FieldsCollect(g: Store, rank: Key -> nat, relations: seq<Relation>, bound: nat,
                                         added: set<Key>)
    requires Acyclic(g, rank) && Below(g, rank, relations, bound)
    ensures var (fields, later) := ExportFields(g, rank, relations, bound, added);
            && Collects(g, rank, added, later, NowFields(fields), OwnFields(fields), bound)
            && (forall r, t :: r in relations && t in r.targets ==> Key(r.comodel, t) in later)
    decreases bound, 2, |relations|
  {
    if relations != [] {
      var r := relations[0];
      assert TargetsBelow(g, rank, r.comodel, r.targets, bound);
      TargetsCollect(g, rank, r.kind, r.comodel, r.targets, bound, added);
      var (docs, added1) := ExportTargets(g, rank, r.comodel, r.targets, bound, added);
      FieldsCollect(g, rank, relations[1..], bound, added1);
      var (rest, later) := ExportFields(g, rank, relations[1..], bound, added1);
      var f := Field(r.field, r.kind, r.comodel, docs);
      assert ([f] + rest)[1..] == rest;
    }
  }

  lemma {:induction false} TargetsCollect(g: Store, rank: Key -> nat, kind: Kind, comodel: string, refs: seq<string>,
                                          bound: nat, added: set<Key>)
    requires Acyclic(g, rank) && TargetsBelow(g, rank, comodel, refs, bound)
    ensures var (docs, later) := ExportTargets(g, rank, comodel, refs, bound, added);
            && Collects(g, rank, added, later, NowDocs(kind, comodel, docs),
                        if kind == One2many then OwnDocs(comodel, docs) else {}, bound)
            && (forall t :: t in refs ==> Key(comodel, t) in later)
    decreases bound, 1, |refs|
  {
    if refs != [] {
      ExportCollects(g, rank, Key(comodel, refs[0]), added, kind);
      var (doc, added1) := Export(g, rank, Key(comodel, refs[0]), added);
      TargetsCollect(g, rank, kind, comodel, refs[1..], bound, added1);
      var (docs, later) := ExportTargets(g, rank, comodel, refs[1..], bound, added1);
      assert ([doc] + docs)[1..] == docs;
    }
  }

  // --- Making records changes none -----------------------------------------------------------

  ghost predicate SameRow(st: Store, st1: Store, x: Key) {
    x in st1 && (x in st ==> st1[x] == st[x])
  }

  ghost predicate Grown(st: Store, st1: Store) {
    forall x :: x in st ==> SameRow(st, st1, x)
  }

  lemma {:induction false} CreationKeeps(st: Store, model: string, vals: Vals)
    ensures Grown(st, CreateRecord(st, model, vals).0)
    decreases vals, 1
  {
    var ref := References.Free(Taken(st, model), if vals.ref.Some? then vals.ref.value else model);
    assert Key(model, ref) !in st;
    var st1 := st[Key(model, ref) := Record(if vals.data.Some? then vals.data.value else "", [])];
    ChildrenKeep(st1, vals.relations);
    forall x | x in st
      ensures SameRow(st, CreateRecord(st, model, vals).0, x)
    {
      assert SameRow(st1, CreateChildren(st1, vals.relations).0, x);
    }
  }

  lemma {:induction false} ChildrenKeep(st: Store, relations: seq<RelationVals>)
    ensures Grown(st, CreateChildren(st, relations).0)
    decreases relations, 1
  {
    if relations != [] {
      var st1 := RunCommands(st, relations[0].comodel, relations[0].commands).0;
      CommandsKeep(st, relations[0].comodel, relations[0].commands);
      ChildrenKeep(st1, relations[1..]);
      GrownTwice(st, st1, CreateChildren(st1, relations[1..]).0);
    }
  }

  lemma {:induction false} CommandsKeep(st: Store, comodel: string, commands: seq<Command>)
    ensures Grown(st, RunCommands(st, comodel, commands).0)
    decreases commands, 1
  {
    if commands != [] {
      var st1 := RunCommand(st, comodel, commands[0]).0;
      CommandKeeps(st, comodel, commands[0]);
      CommandsKeep(st1, comodel, commands[1..]);
      GrownTwice(st, st1, RunCommands(st1, comodel, commands[1..]).0);
    }
  }

  lemma {:induction false} CommandKeeps(st: Store, comodel: string, command: Command)
    ensures Grown(st, RunCommand(st, comodel, command).0)
    decreases command, 1
  {
    if command.New? {
      CreationKeeps(st, comodel, command.vals);
    }
  }

  lemma GrownTwice(st: Store, st1: Store, st2: Store)
    requires Grown(st, st1) && Grown(st1, st2)
    ensures Grown(st, st2)
  {
    forall x | x in st
      ensures SameRow(st, st2, x)
    {
      assert SameRow(st, st1, x) && SameRow(st1, st2, x);
    }
  }

  // --- Making the own records of a document --------------------------------------------------

  ghost function Part(g: Store, s: set<Key>): Store {
    map k | k in s && k in g :: g[k]
  }

  lemma PartUnion(g: Store, st: Store, a: set<Key>, b: set<Key>)
    ensures st + Part(g, a) + Part(g, b) == st + Part(g, a + b)
  {
  }

  lemma {:induction false} OwnCreated(g: Store, rank: Key -> nat, k: Key, added: set<Key>, st: Store)
    requires Acyclic(g, rank) && k in g && k !in added
    requires var doc := Export(g, rank, k, added).0; st.Keys !! Own(k.model, doc)
    ensures var doc := Export(g, rank, k, added).0;
            CreateRecord(st, k.model, ValsOf(doc)) == (st + Part(g, Own(k.model, doc)), k.ref)
    decreases rank(k), 3, 0
  {
    var relations := g[k].relations;
    assert Below(g, rank, relations, rank(k));
    var fields := ExportFields(g, rank, relations, rank(k), added).0;
    ExportCollects(g, rank, k, added, One2many);
    FieldsCreated(g, rank, relations, rank(k), added, st[k := Record(g[k].data, [])]);
    OwnCreatedFrom(g, k, fields, st);
  }

  lemma OwnCreatedFrom(g: Store, k: Key, fields: seq<Field>, st: Store)
    requires k in g && k !in st
    requires CreateChildren(st[k := Record(g[k].data, [])], RelationsOf(fields))
          == (st[k := Record(g[k].data, [])] + Part(g, OwnFields(fields)), g[k].relations)
    ensures var doc := Full(k.ref, g[k].data, fields);
            CreateRecord(st, k.model, ValsOf(doc)) == (st + Part(g, Own(k.model, doc)), k.ref)
  {
    CreateWithFreeReference(st, k, g[k].data, RelationsOf(fields));
    var stub := st[k := Record(g[k].data, [])];
    assert (stub + Part(g, OwnFields(fields)))[k := g[k]] == st + Part(g, {k} + OwnFields(fields));
  }

  lemma CreateWithFreeReference(st: Store, k: Key, data: string, relations: seq<RelationVals>)
    requires k !in st
    ensures var (st1, made) := CreateChildren(st[k := Record(data, [])], relations);
            CreateRecord(st, k.model, Vals(Some(k.ref), Some(data), relations)) == (st1[k := Record(data, made)], k.ref)
  {
    assert k.ref !in Taken(st, k.model);
  }

  lemma {:induction false} FieldsCreated(g: Store, rank: Key -> nat, relations: seq<Relation>, bound: nat,
                                         added: set<Key>, st: Store)
    requires Acyclic(g, rank) && Below(g, rank, relations, bound)
    requires st.Keys !! OwnFields(ExportFields(g, rank, relations, bound, added).0)
    ensures var fields := ExportFields(g, rank, relations, bound, added).0;
            CreateChildren(st, RelationsOf(fields)) == (st + Part(g, OwnFields(fields)), relations)
    decreases bound, 2, |relations|
  {
    if relations != [] {
      var r := relations[0];
      assert TargetsBelow(g, rank, r.comodel, r.targets, bound);
      var (docs, added1) := ExportTargets(g, rank, r.comodel, r.targets, bound, added);
      var rest := ExportFields(g, rank, relations[1..], bound, added1).0;
      var f := Field(r.field, r.kind, r.comodel, docs);
      assert ([f] + rest)[1..] == rest;
      TargetsCollect(g, rank, r.kind, r.comodel, r.targets, bound, added);
      FieldsCollect(g, rank, relations[1..], bound, added1);
      TargetsCreated(g, rank, r.kind, r.comodel, r.targets, bound, added, st);
      FieldsCreated(g, rank, relations[1..], bound, added1, st + Part(g, OwnField(f)));
      PartUnion(g, st, OwnField(f), OwnFields(rest));
      assert RelationsOf([f] + rest)[1..] == RelationsOf(rest);
      assert [Relation(r.field, r.kind, r.comodel, r.targets)] + relations[1..] == relations;
    } else {
      assert st + Part(g, {}) == st;
    }
  }

  lemma {:induction false} TargetsCreated(g: Store, rank: Key -> nat, kind: Kind, comodel: string, refs: seq<string>,
                                          bound: nat, added: set<Key>, st: Store)
    requires Acyclic(g, rank) && TargetsBelow(g, rank, comodel, refs, bound)
    requires kind == One2many ==> st.Keys !! OwnDocs(comodel, ExportTargets(g, rank, comodel, refs, bound, added).0)
    ensures var docs := ExportTargets(g, rank, comodel, refs, bound, added).0;
            RunCommands(st, comodel, CommandsOf(kind, docs))
              == (st + Part(g, if kind == One2many then OwnDocs(comodel, docs) else {}), refs)
    decreases bound, 1, |refs|
  {
    if refs == [] {
      assert st + Part(g, {}) == st;
    } else {
      var k := Key(comodel, refs[0]);
      var (doc, added1) := Export(g, rank, k, added);
      var docs := ExportTargets(g, rank, comodel, refs[1..], bound, added1).0;
      assert ([doc] + docs)[0] == doc && ([doc] + docs)[1..] == docs;
      ExportCollects(g, rank, k, added, One2many);
      TargetsCollect(g, rank, One2many, comodel, refs[1..], bound, added1);
      TargetCreated(g, rank, kind, k, added, st);
      TargetsCreated(g, rank, kind, comodel, refs[1..], bound, added1, st + Part(g, OwnDoc(kind, comodel, doc)));
      TargetsCreatedFrom(g, kind, comodel, doc, docs, refs, st);
    }
  }

  ghost function OwnDoc(kind: Kind, comodel: string, doc: Doc): set<Key> {
    if kind == One2many then Own(comodel, doc) else {}
  }

  lemma TargetsCreatedFrom(g: Store, kind: Kind, comodel: string, doc: Doc, docs: seq<Doc>, refs: seq<string>,
                           st: Store)
    requires refs != []
    requires RunCommand(st, comodel, CommandOf(kind, doc)) == (st + Part(g, OwnDoc(kind, comodel, doc)), refs[0])
    requires var own := if kind == One2many then OwnDocs(comodel, docs) else {};
             var st1 := st + Part(g, OwnDoc(kind, comodel, doc));
             RunCommands(st1, comodel, CommandsOf(kind, docs)) == (st1 + Part(g, own), refs[1..])
    ensures RunCommands(st, comodel, CommandsOf(kind, [doc] + docs))
         == (st + Part(g, if kind == One2many then OwnDocs(comodel, [doc] + docs) else {}), refs)
  {
    CommandsFirst(st, comodel, kind, doc, docs);
    PartUnion(g, st, OwnDoc(kind, comodel, doc), if kind == One2many then OwnDocs(comodel, docs) else {});
    assert ([doc] + docs)[1..] == docs;
    assert [refs[0]] + refs[1..] == refs;
  }

  lemma {:induction false} TargetCreated(g: Store, rank: Key -> nat, kind: Kind, k: Key, added: set<Key>, st: Store)
    requires Acyclic(g, rank) && k in g
    requires kind == One2many ==> st.Keys !! Own(k.model, Export(g, rank, k, added).0)
    ensures var doc := Export(g, rank, k, added).0;
            RunCommand(st, k.model, CommandOf(kind, doc))
              == (st + Part(g, if kind == One2many then Own(k.model, doc) else {}), k.ref)
    decreases rank(k), 4, 0
  {
    if kind == One2many && k !in added {
      OwnCreated(g, rank, k, added, st);
    } else {
      assert st + Part(g, {}) == st;
    }
  }

  lemma CommandsFirst(st: Store, comodel: string, kind: Kind, doc: Doc, docs: seq<Doc>)
    ensures var (st1, ref) := RunCommand(st, comodel, CommandOf(kind, doc));
            var (st2, refs) := RunCommands(st1, comodel, CommandsOf(kind, docs));
            RunCommands(st, comodel, CommandsOf(kind, [doc] + docs)) == (st2, [ref] + refs)
  {
    assert ([doc] + docs)[1..] == docs;
    assert CommandsOf(kind, [doc] + docs) == [CommandOf(kind, doc)] + CommandsOf(kind, docs);
    assert ([CommandOf(kind, doc)] + CommandsOf(kind, docs))[1..] == CommandsOf(kind, docs);
  }

  // --- Processing a document -----------------------------------------------------------------

  lemma BareLinked(s: Setting, st: Store, model: string, kind: Kind, comodel: string, doc: Doc)
    requires doc.Bare? && Resolves(s, model, kind, comodel, doc, st.Keys)
    ensures ProcessDoc(s, st, model, kind, comodel, doc) == (st, Some(Link(doc.ref)))
  {
    var k := Key(comodel, doc.ref);
    if s.mode != Create || s.resolve(model, comodel) {
      assert DocVals(s, st, comodel, doc) == (st, Vals(Some(doc.ref), None, []));
      assert WriteRecord(st, k, Vals(None, None, [])) == st;
    }
  }

  lemma {:induction false} DocBuilt(s: Setting, g: Store, rank: Key -> nat, k: Key, added: set<Key>, st: Store,
                                    model: string, kind: Kind)
    requires Acyclic(g, rank) && k in g
    requires st.Keys !! Export(g, rank, k, added).1 - added
    requires Resolves(s, model, kind, k.model, Export(g, rank, k, added).0, st.Keys)
    ensures var doc := Export(g, rank, k, added).0;
            ProcessDoc(s, st, model, kind, k.model, doc)
              == (st + Part(g, Now(kind, k.model, doc)), Some(CommandOf(kind, doc)))
    decreases rank(k), 3, 0
  {
    var (doc, later) := Export(g, rank, k, added);
    if k in added {
      BareLinked(s, st, model, kind, k.model, doc);
      assert st + Part(g, {}) == st;
    } else {
      ExportCollects(g, rank, k, added, kind);
      ValsBuilt(s, g, rank, k, added, st);
      var st1 := st + Part(g, NowFields(doc.fields));
      assert k !in st && k !in st1;
      if kind != One2many {
        OwnCreated(g, rank, k, added, st1);
        PartUnion(g, st, NowFields(doc.fields), Own(k.model, doc));
      } else {
        assert NowFields(doc.fields) + {} == NowFields(doc.fields);
      }
      var built := (st + Part(g, Now(kind, k.model, doc)), Some(CommandOf(kind, doc)));
      assert Build(s, st, k.model, doc, kind != One2many) == built;
      assert UpdateOrCreate(s, st, model, k.model, doc, kind != One2many) == built;
    }
  }

  // The values of a document in full, with everything made on the way.
  lemma {:induction false} ValsBuilt(s: Setting, g: Store, rank: Key -> nat, k: Key, added: set<Key>, st: Store)
    requires Acyclic(g, rank) && k in g && k !in added
    requires st.Keys !! Export(g, rank, k, added).1 - added
    requires ResolvesFields(s, k.model, Export(g, rank, k, added).0.fields, st.Keys)
    ensures var doc := Export(g, rank, k, added).0;
            DocVals(s, st, k.model, doc) == (st + Part(g, NowFields(doc.fields)), ValsOf(doc))
    decreases rank(k), 2, |g[k].relations| + 1
  {
    assert Below(g, rank, g[k].relations, rank(k));
    ExportCollects(g, rank, k, added, One2many);
    FieldsBuilt(s, g, rank, g[k].relations, rank(k), added, st, k.model);
  }

  lemma {:induction false} FieldsBuilt(s: Setting, g: Store, rank: Key -> nat, relations: seq<Relation>, bound: nat,
                                       added: set<Key>, st: Store, model: string)
    requires Acyclic(g, rank) && Below(g, rank, relations, bound)
    requires st.Keys !! ExportFields(g, rank, relations, bound, added).1 - added
    requires ResolvesFields(s, model, ExportFields(g, rank, relations, bound, added).0, st.Keys)
    ensures var fields := ExportFields(g, rank, relations, bound, added).0;
            ProcessFields(s, st, model, fields) == (st + Part(g, NowFields(fields)), RelationsOf(fields))
    decreases bound, 2, |relations|
  {
    if relations == [] {
      assert st + Part(g, {}) == st;
    } else {
      var r := relations[0];
      assert TargetsBelow(g, rank, r.comodel, r.targets, bound);
      var (docs, added1) := ExportTargets(g, rank, r.comodel, r.targets, bound, added);
      var (rest, later) := ExportFields(g, rank, relations[1..], bound, added1);
      var f := Field(r.field, r.kind, r.comodel, docs);
      assert ([f] + rest)[0] == f && ([f] + rest)[1..] == rest;
      TargetsCollect(g, rank, r.kind, r.comodel, r.targets, bound, added);
      FieldsCollect(g, rank, relations[1..], bound, added1);
      TargetsBuilt(s, g, rank, r.kind, r.comodel, r.targets, bound, added, st, model);
      var st1 := st + Part(g, NowField(f));
      assert st1.Keys == st.Keys + NowField(f);
      FieldsBuilt(s, g, rank, relations[1..], bound, added1, st1, model);
      PartUnion(g, st, NowField(f), NowFields(rest));
    }
  }

  lemma {:induction false} TargetsBuilt(s: Setting, g: Store, rank: Key -> nat, kind: Kind, comodel: string,
                                        refs: seq<string>, bound: nat, added: set<Key>, st: Store, model: string)
    requires Acyclic(g, rank) && TargetsBelow(g, rank, comodel, refs, bound)
    requires st.Keys !! ExportTargets(g, rank, comodel, refs, bound, added).1 - added
    requires ResolvesDocs(s, model, kind, comodel, ExportTargets(g, rank, comodel, refs, bound, added).0, st.Keys)
    ensures var docs := ExportTargets(g, rank, comodel, refs, bound, added).0;
            ProcessDocs(s, st, model, kind, comodel, docs)
              == (st + Part(g, NowDocs(kind, comodel, docs)), CommandsOf(kind, docs))
    decreases bound, 1, |refs|
  {
    if refs == [] {
      assert st + Part(g, {}) == st;
    } else {
      var k := Key(comodel, refs[0]);
      var (doc, added1) := Export(g, rank, k, added);
      var (docs, later) := ExportTargets(g, rank, comodel, refs[1..], bound, added1);
      assert ([doc] + docs)[0] == doc && ([doc] + docs)[1..] == docs;
      ExportCollects(g, rank, k, added, kind);
      TargetsCollect(g, rank, kind, comodel, refs[1..], bound, added1);
      DocBuilt(s, g, rank, k, added, st, model, kind);
      var st1 := st + Part(g, Now(kind, comodel, doc));
      assert st1.Keys == st.Keys + Now(kind, comodel, doc);
      TargetsBuilt(s, g, rank, kind, comodel, refs[1..], bound, added1, st1, model);
      PartUnion(g, st, Now(kind, comodel, doc), NowDocs(kind, comodel, docs));
    }
  }

  // --- Files ---------------------------------------------------------------------------------

  lemma {:induction false} FileImported(s: Setting, g: Store, rank: Key -> nat, keys: seq<Key>, added: set<Key>)
    requires Acyclic(g, rank) && (forall k :: k in keys ==> k in g) && added <= g.Keys && Closed(g, added)
    requires ResolvesFile(s, ExportAll(g, rank, keys, added).0, added)
    ensures var (entries, later) := ExportAll(g, rank, keys, added);
            && Import(s, Part(g, added), entries) == Part(g, later)
            && added <= later <= g.Keys && Closed(g, later) && (forall k :: k in keys ==> k in later)
    decreases |keys|
  {
    if keys != [] {
      var k := keys[0];
      var (doc, added1) := Export(g, rank, k, added);
      var (rest, later) := ExportAll(g, rank, keys[1..], added1);
      ExportCollects(g, rank, k, added, Many2one);
      if k !in added {
        var entries := ExportAll(g, rank, keys, added).0;
        assert entries[0] == Entry(k.model, doc) && entries[1..] == rest;
        EntryImported(s, g, rank, k, added);
        assert added + Now(Many2one, k.model, doc) == added1;
      }
      FileImported(s, g, rank, keys[1..], added1);
    }
  }

  lemma PartsJoin(g: Store, added: set<Key>, made: set<Key>, own: set<Key>, later: set<Key>)
    requires added <= later && made + own == later - added
    ensures Part(g, added) + Part(g, made) + Part(g, own) == Part(g, later)
  {
    assert later == added + (later - added) == added + made + own;
  }

  lemma EntryImported(s: Setting, g: Store, rank: Key -> nat, k: Key, added: set<Key>)
    requires Acyclic(g, rank) && k in g && k !in added && added <= g.Keys
    requires Resolves(s, "", Many2one, k.model, Export(g, rank, k, added).0, added)
    ensures ImportEntry(s, Part(g, added), Entry(k.model, Export(g, rank, k, added).0))
            == Part(g, Export(g, rank, k, added).1)
  {
    var (doc, later) := Export(g, rank, k, added);
    var st := Part(g, added);
    assert st.Keys == added;
    ExportCollects(g, rank, k, added, Many2one);
    ValsBuilt(s, g, rank, k, added, st);
    var st1 := st + Part(g, NowFields(doc.fields));
    assert k !in st1;
    OwnCreated(g, rank, k, added, st1);
    PartsJoin(g, added, NowFields(doc.fields), Own(k.model, doc), later);
  }

  /** `s` is what can be reached from `keys`: it holds them, is closed under relations, and is the least such set. */
  ghost predicate Reachable(g: Store, keys: seq<Key>, s: set<Key>) {
    && (forall k :: k in keys ==> k in s)
    && Closed(g, s)
    && (forall t: set<Key> :: (forall k :: k in keys ==> k in t) && Closed(g, t) ==> s <= t)
  }

  lemma {:induction false} ExportLeast(g: Store, rank: Key -> nat, k: Key, added: set<Key>, t: set<Key>)
    requires Acyclic(g, rank) && k in g && k in t && Closed(g, t) && added <= t
    ensures Export(g, rank, k, added).1 <= t
    decreases rank(k), 3, 0
  {
    if k !in added {
      assert Below(g, rank, g[k].relations, rank(k));
      FieldsLeast(g, rank, g[k].relations, rank(k), added, t);
    }
  }

  lemma {:induction false} FieldsLeast(g: Store, rank: Key -> nat, relations: seq<Relation>, bound: nat,
                                       added: set<Key>, t: set<Key>)
    requires Acyclic(g, rank) && Below(g, rank, relations, bound) && Closed(g, t) && added <= t
    requires forall r, x :: r in relations && x in r.targets ==> Key(r.comodel, x) in t
    ensures ExportFields(g, rank, relations, bound, added).1 <= t
    decreases bound, 2, |relations|
  {
    if relations != [] {
      var r := relations[0];
      assert TargetsBelow(g, rank, r.comodel, r.targets, bound);
      TargetsLeast(g, rank, r.comodel, r.targets, bound, added, t);
      FieldsLeast(g, rank, relations[1..], bound, ExportTargets(g, rank, r.comodel, r.targets, bound, added).1, t);
    }
  }

  lemma {:induction false} TargetsLeast(g: Store, rank: Key -> nat, comodel: string, refs: seq<string>, bound: nat,
                                        added: set<Key>, t: set<Key>)
    requires Acyclic(g, rank) && TargetsBelow(g, rank, comodel, refs, bound) && Closed(g, t) && added <= t
    requires forall x :: x in refs ==> Key(comodel, x) in t
    ensures ExportTargets(g, rank, comodel, refs, bound, added).1 <= t
    decreases bound, 1, |refs|
  {
    if refs != [] {
      ExportLeast(g, rank, Key(comodel, refs[0]), added, t);
      TargetsLeast(g, rank, comodel, refs[1..], bound, Export(g, rank, Key(comodel, refs[0]), added).1, t);
    }
  }

  lemma {:induction false} FileLeast(g: Store, rank: Key -> nat, keys: seq<Key>, added: set<Key>, t: set<Key>)
    requires Acyclic(g, rank) && (forall k :: k in keys ==> k in g && k in t) && Closed(g, t) && added <= t
    ensures ExportAll(g, rank, keys, added).1 <= t
    decreases |keys|
  {
    if keys != [] {
      ExportLeast(g, rank, keys[0], added, t);
      FileLeast(g, rank, keys[1..], Export(g, rank, keys[0], added).1, t);
    }
  }

  /** Main result: if the bare references of an exported file resolve, importing it into an empty database gives
      exactly the records that can be reached from the selection, with their data and their relations. */
  lemma RoundTrip(s: Setting, g: Store, rank: Key -> nat, keys: seq<Key>)
    requires Acyclic(g, rank) && forall k :: k in keys ==> k in g
    requires ResolvesFile(s, ExportAll(g, rank, keys, {}).0, {})
    ensures var rebuilt := Import(s, map[], ExportAll(g, rank, keys, {}).0);
            && Reachable(g, keys, rebuilt.Keys)
            && forall k :: k in rebuilt ==> k in g && rebuilt[k] == g[k]
  {
    assert Part(g, {}) == map[];
    FileImported(s, g, rank, keys, {});
    var later := ExportAll(g, rank, keys, {}).1;
    assert Part(g, later).Keys == later;
    forall t: set<Key> | (forall k :: k in keys ==> k in t) && Closed(g, t)
      ensures later <= t
    {
      FileLeast(g, rank, keys, {}, t);
    }
  }
}
