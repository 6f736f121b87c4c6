/** Records, the documents they are exported to, and what exporting and importing mean.

    A record is known by its model and its reference.  A document holds a record in full the first time the
    export meets it, and afterwards only its reference. */
module YamlRecords {
  import opened Basics
  import References

  datatype Key = Key(model: string, ref: string)
  datatype Kind = Many2one | Many2many | One2many

  // A relation field of a record; a many2one has at most one target.
  datatype Relation = Relation(field: string, kind: Kind, comodel: string, targets: seq<string>)
  datatype Record = Record(data: string, relations: seq<Relation>)
  type Store = map<Key, Record>

  // `Bare` is a document with the key `reference` and no other.
  datatype Doc = Bare(ref: string) | Full(ref: string, data: string, fields: seq<Field>)
  datatype Field = Field(field: string, kind: Kind, comodel: string, docs: seq<Doc>)

  // --- Export --------------------------------------------------------------------------------

  /** All targets exist, and no record reaches itself: `rank` goes down along every relation. */
  ghost predicate Acyclic(g: Store, rank: Key -> nat) {
    forall k, r, t :: k in g && r in g[k].relations && t in r.targets ==>
      Key(r.comodel, t) in g && rank(Key(r.comodel, t)) < rank(k)
  }

  ghost predicate Below(g: Store, rank: Key -> nat, relations: seq<Relation>, bound: nat) {
    forall r, t :: r in relations && t in r.targets ==> Key(r.comodel, t) in g && rank(Key(r.comodel, t)) < bound
  }

  ghost predicate TargetsBelow(g: Store, rank: Key -> nat, comodel: string, refs: seq<string>, bound: nat) {
    forall t :: t in refs ==> Key(comodel, t) in g && rank(Key(comodel, t)) < bound
  }

  /** The document of record `k`, and the collector afterwards; a record is collected after its children. */
  ghost function Export(g: Store, rank: Key -> nat, k: Key, added: set<Key>): (r: (Doc, set<Key>))
    requires Acyclic(g, rank) && k in g
    ensures r.0.ref == k.ref && (r.0.Bare? <==> k in added)
    decreases rank(k), 3, 0
  {
    if k in added then (Bare(k.ref), added)
    else
      assert Below(g, rank, g[k].relations, rank(k));
      var (fields, added') := ExportFields(g, rank, g[k].relations, rank(k), added);
      (Full(k.ref, g[k].data, fields), added' + {k})
  }

  ghost function ExportFields(g: Store, rank: Key -> nat, relations: seq<Relation>, bound: nat, added: set<Key>)
    : (seq<Field>, set<Key>)
    requires Acyclic(g, rank) && Below(g, rank, relations, bound)
    decreases bound, 2, |relations|
  {
    if relations == [] then ([], added)
    else
      var r := relations[0];
      assert TargetsBelow(g, rank, r.comodel, r.targets, bound);
      var (docs, added1) := ExportTargets(g, rank, r.comodel, r.targets, bound, added);
      var (fields, added2) := ExportFields(g, rank, relations[1..], bound, added1);
      ([Field(r.field, r.kind, r.comodel, docs)] + fields, added2)
  }

  ghost function ExportTargets(g: Store, rank: Key -> nat, comodel: string, refs: seq<string>, bound: nat,
                               added: set<Key>): (seq<Doc>, set<Key>)
    requires Acyclic(g, rank) && TargetsBelow(g, rank, comodel, refs, bound)
    decreases bound, 1, |refs|
  {
    if refs == [] then ([], added)
    else
      var (doc, added1) := Export(g, rank, Key(comodel, refs[0]), added);
      var (docs, added2) := ExportTargets(g, rank, comodel, refs[1..], bound, added1);
      ([doc] + docs, added2)
  }

  // A top-level entry of a file: the model and the document.
  datatype Entry = Entry(model: string, doc: Doc)

  /** The file for a selection of records: entries that would hold nothing but a reference are dropped. */
  ghost function ExportAll(g: Store, rank: Key -> nat, keys: seq<Key>, added: set<Key>): (seq<Entry>, set<Key>)
    requires Acyclic(g, rank) && forall k :: k in keys ==> k in g
  {
    if keys == [] then ([], added)
    else
      var (doc, added1) := Export(g, rank, keys[0], added);
      var (entries, added2) := ExportAll(g, rank, keys[1..], added1);
      (if doc.Bare? then entries else [Entry(keys[0].model, doc)] + entries, added2)
  }

  // --- Import --------------------------------------------------------------------------------

  // What to do with a record that exists already.
  datatype Mode = Skip | Update | Create

  // Values ready for the database.  `Link` adds an existing record, `New` makes one together with its parent.
  datatype Command = Link(ref: string) | New(vals: Vals)
  datatype Vals = Vals(ref: Option<string>, data: Option<string>, relations: seq<RelationVals>)
  datatype RelationVals = RelationVals(field: string, kind: Kind, comodel: string, commands: seq<Command>)

  // `resolve(m, c)`: records of model `c` are never duplicated when a record of model `m` refers to them.
  datatype Setting = Setting(mode: Mode, resolve: (string, string) -> bool)

  function Taken(st: Store, model: string): set<string> {
    set k | k in st && k.model == model :: k.ref
  }

  /** Make a record with its new children.  A reference that is taken gets a suffix. */
  function CreateRecord(st: Store, model: string, vals: Vals): (r: (Store, string))
    decreases vals, 0
  {
    var ref := References.Free(Taken(st, model), if vals.ref.Some? then vals.ref.value else model);
    var data := if vals.data.Some? then vals.data.value else "";
    var st1 := st[Key(model, ref) := Record(data, [])];
    var (st2, relations) := CreateChildren(st1, vals.relations);
    (st2[Key(model, ref) := Record(data, relations)], ref)
  }

  function CreateChildren(st: Store, relations: seq<RelationVals>): (Store, seq<Relation>)
    decreases relations, 0
  {
    if relations == [] then (st, [])
    else
      var r := relations[0];
      var (st1, targets) := RunCommands(st, r.comodel, r.commands);
      var (st2, rest) := CreateChildren(st1, relations[1..]);
      (st2, [Relation(r.field, r.kind, r.comodel, targets)] + rest)
  }

  function RunCommands(st: Store, comodel: string, commands: seq<Command>): (Store, seq<string>)
    decreases commands, 0
  {
    if commands == [] then (st, [])
    else
      var (st1, ref) := RunCommand(st, comodel, commands[0]);
      var (st2, refs) := RunCommands(st1, comodel, commands[1..]);
      (st2, [ref] + refs)
  }

  function RunCommand(st: Store, comodel: string, command: Command): (Store, string)
    decreases command, 0
  {
    match command
    case Link(ref) => (st, ref)
    case New(vals) => CreateRecord(st, comodel, vals)
  }

  // The relations of a record after a write: a many2one is replaced, other links are added.
  function Merge(old_: seq<Relation>, new_: seq<Relation>): seq<Relation>
    decreases |new_|
  {
    if new_ == [] then old_ else Merge(MergeOne(old_, new_[0]), new_[1..])
  }

  function MergeOne(relations: seq<Relation>, r: Relation): seq<Relation> {
    if relations == [] then [r]
    else if relations[0].field == r.field then
      [r.(targets :=
            if r.kind == Many2one then r.targets
            else relations[0].targets + Missing(relations[0].targets, r.targets))]
      + relations[1..]
    else [relations[0]] + MergeOne(relations[1..], r)
  }

  function Missing(have: seq<string>, refs: seq<string>): seq<string> {
    if refs == [] then []
    else (if refs[0] in have then [] else [refs[0]]) + Missing(have, refs[1..])
  }

  function WriteRecord(st: Store, k: Key, vals: Vals): Store
    requires k in st
  {
    var (st1, relations) := CreateChildren(st, vals.relations);
    var row := if k in st1 then st1[k] else st[k];
    st1[k := Record(if vals.data.Some? then vals.data.value else row.data, Merge(row.relations, relations))]
  }

  /** Turn the fields of a document of model `model` into values.  Records behind many2one and many2many fields
      are made at once, those behind one2many fields with their parent. */
  function ProcessFields(s: Setting, st: Store, model: string, fields: seq<Field>): (Store, seq<RelationVals>)
    decreases fields, 0
  {
    if fields == [] then (st, [])
    else
      var f := fields[0];
      var (st1, commands) := ProcessDocs(s, st, model, f.kind, f.comodel, f.docs);
      var (st2, rest) := ProcessFields(s, st1, model, fields[1..]);
      (st2, [RelationVals(f.field, f.kind, f.comodel, commands)] + rest)
  }

  function ProcessDocs(s: Setting, st: Store, model: string, kind: Kind, comodel: string, docs: seq<Doc>)
    : (Store, seq<Command>)
    decreases docs, 0
  {
    if docs == [] then (st, [])
    else
      var (st1, command) := ProcessDoc(s, st, model, kind, comodel, docs[0]);
      var (st2, rest) := ProcessDocs(s, st1, model, kind, comodel, docs[1..]);
      (st2, (if command.Some? then [command.value] else []) + rest)
  }

  // A document that led to no record still links one with its reference, if there is one.
  function ProcessDoc(s: Setting, st: Store, model: string, kind: Kind, comodel: string, doc: Doc)
    : (Store, Option<Command>)
    decreases doc, 2
  {
    var (st1, command) := UpdateOrCreate(s, st, model, comodel, doc, kind != One2many);
    if command.Some? then (st1, command)
    else if Key(comodel, doc.ref) in st1 then (st1, Some(Link(doc.ref)))
    else (st1, None)
  }

  function UpdateOrCreate(s: Setting, st: Store, model: string, comodel: string, doc: Doc, immediately: bool)
    : (Store, Option<Command>)
    decreases doc, 1
  {
    if s.mode != Create || s.resolve(model, comodel) then
      if Key(comodel, doc.ref) in st then
        var (st1, vals) := DocVals(s, st, comodel, doc);
        (if Key(comodel, doc.ref) in st1 then WriteRecord(st1, Key(comodel, doc.ref), vals.(ref := None)) else st1,
         Some(Link(doc.ref)))
      else
        Build(s, st, comodel, doc, immediately)
    else if immediately && doc.Bare? then (st, None)
    else Build(s, st, comodel, doc, immediately)
  }

  function Build(s: Setting, st: Store, comodel: string, doc: Doc, immediately: bool): (Store, Option<Command>)
    decreases doc, 0, 1
  {
    var (st1, vals) := DocVals(s, st, comodel, doc);
    if immediately then
      var (st2, ref) := CreateRecord(st1, comodel, vals);
      (st2, Some(Link(ref)))
    else (st1, Some(New(vals)))
  }

  function DocVals(s: Setting, st: Store, model: string, doc: Doc): (Store, Vals)
    decreases doc, 0, 0
  {
    match doc
    case Bare(ref) => (st, Vals(Some(ref), None, []))
    case Full(ref, data, fields) =>
      var (st1, relations) := ProcessFields(s, st, model, fields);
      (st1, Vals(Some(ref), Some(data), relations))
  }

  /** Import the entries of a file in order. */
  function Import(s: Setting, st: Store, entries: seq<Entry>): Store
    decreases |entries|
  {
    if entries == [] then st
    else Import(s, ImportEntry(s, st, entries[0]), entries[1..])
  }

  function ImportEntry(s: Setting, st: Store, entry: Entry): Store {
    var k := Key(entry.model, entry.doc.ref);
    if s.mode == Skip && k in st then st
    else
      var (st1, vals) := DocVals(s, st, entry.model, entry.doc);
      if s.mode == Update && k in st && k in st1 then WriteRecord(st1, k, vals)
      else CreateRecord(st1, entry.model, vals).0
  }
}
