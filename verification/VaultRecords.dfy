/** A model whose secret fields live in the vault.  Its own table never keeps a secret, nor one of the temporary
    identifiers that stand for the secrets while records are made in a batch. */
module VaultRecords {
  import opened Basics
  import References
  import opened Vault

  function Value(vals: Vals, f: string): Option<string> {
    if f in vals then vals[f] else None
  }

  function Elements<T(==)>(s: seq<T>): set<T> {
    set x | x in s
  }

  /** The values of a batch by the ids of the new records, which are numbered from `first`. */
  function ById(batch: seq<Vals>, first: nat): map<nat, Vals> {
    map id | id in Numbers(first, |batch|) :: batch[id - first]
  }

  function Numbers(first: nat, count: nat): seq<nat> {
    seq(count, i requires 0 <= i => first + i)
  }

  lemma ByIdNone(batch: seq<Vals>, start: nat)
    ensures ById(batch[..0], start) == map[]
  {
  }

  lemma ByIdGrows(batch: seq<Vals>, first: nat, i: nat)
    requires i < |batch|
    ensures ById(batch[..i + 1], first) == ById(batch[..i], first)[first + i := batch[i]]
    ensures first + i !in ById(batch[..i], first)
    ensures Numbers(first, i + 1) == Numbers(first, i) + [first + i]
  {
    assert Numbers(first, i + 1) == Numbers(first, i) + [first + i];
  }

  ghost predicate Kept(value: Option<string>) {
    value.Some? && value.value != ""
  }

  ghost predicate IsGiven(model: string, fields: seq<string>, given: map<nat, Vals>, k: SecretKey) {
    k.model == model && k.id in given && k.field in fields && Kept(Value(given[k.id], k.field))
  }

  /** `after` is `before` with the secrets given for new records.  Empty strings are dropped. */
  ghost predicate Adds(before: map<SecretKey, string>, after: map<SecretKey, string>, model: string,
                       fields: seq<string>, given: map<nat, Vals>) {
    && (forall k :: k in after <==> k in before || IsGiven(model, fields, given, k))
    && (forall k :: k in after ==>
          after[k] == if IsGiven(model, fields, given, k) then Value(given[k.id], k.field).value else before[k])
  }

  /** What was given for a field of a new record is read back, unless it was nothing or an empty string; all other
      secrets are as they were. */
  lemma AddedReads(before: map<SecretKey, string>, after: map<SecretKey, string>, model: string, fields: seq<string>,
                   given: map<nat, Vals>, k: SecretKey)
    requires Adds(before, after, model, fields, given)
    ensures if k.model == model && k.id in given && k.field in fields && k.field in given[k.id]
               && given[k.id][k.field].Some? && given[k.id][k.field].value != "" then
              k in after && after[k] == given[k.id][k.field].value
            else (k in after <==> k in before) && (k in before ==> after[k] == before[k])
  {
    assert IsGiven(model, fields, given, k) ==> k in after;
  }

  /** Each secret of `before` stands in `after` as an identifier that `secretVals` maps back to it. */
  ghost predicate Replaced(before: Vals, after: Vals, fields: seq<string>, secretVals: map<string, string>) {
    && after.Keys == before.Keys
    && forall f :: f in before ==>
         if f in fields && before[f].Some? then after[f].Some? && after[f].value in secretVals
            && secretVals[after[f].value] == before[f].value
         else after[f] == before[f]
  }

  // The identifiers given so far.
  ghost predicate Numbered(secretVals: map<string, string>, counter: nat) {
    forall t :: t in secretVals ==> exists n: nat :: n <= counter && t == References.Decimal(n)
  }

  lemma NextNumberFree(secretVals: map<string, string>, counter: nat, t: string)
    requires Numbered(secretVals, counter) && t in secretVals
    ensures t != References.Decimal(counter + 1)
  {
    var n: nat :| n <= counter && t == References.Decimal(n);
    if t == References.Decimal(counter + 1) {
      References.DecimalInjective(n, counter + 1);
    }
  }

  ghost predicate Within(a: map<string, string>, b: map<string, string>) {
    forall t :: t in a ==> t in b && b[t] == a[t]
  }

  lemma NextNumberFresh(known: map<string, string>, counter: nat, secret: string)
    requires Numbered(known, counter)
    ensures Within(known, known[References.Decimal(counter + 1) := secret])
    ensures Numbered(known[References.Decimal(counter + 1) := secret], counter + 1)
  {
    forall t | t in known
      ensures t != References.Decimal(counter + 1)
    {
      NextNumberFree(known, counter, t);
    }
  }

  // The columns of a new record hold the identifiers of the values given for it.
  ghost predicate Filled(columns: Vals, given: Vals, fields: seq<string>, secretVals: map<string, string>) {
    && columns.Keys == Elements(fields)
    && forall f :: f in fields ==> Stands(columns[f], Value(given, f), secretVals)
  }

  ghost predicate Stands(column: Option<string>, value: Option<string>, secretVals: map<string, string>) {
    if value.None? then column.None?
    else column.Some? && column.value in secretVals && secretVals[column.value] == value.value
  }

  lemma GivenIsUpdate(secrets: map<SecretKey, string>, model: string, fields: seq<string>, given: Vals, id: nat,
                      vaultVals: Vals)
    requires vaultVals == map f | f in fields && Kept(Value(given, f)) :: Value(given, f)
    ensures Adds(secrets, Updated(secrets, Keys(model, [id], Allowed(vaultVals, Elements(fields))), vaultVals), model,
                 fields, map[id := given])
  {
    var keys := Keys(model, [id], Allowed(vaultVals, Elements(fields)));
    forall k: SecretKey
      ensures k in keys <==> IsGiven(model, fields, map[id := given], k)
    {
      assert k in keys <==> k.model == model && k.id == id && k.field in fields && k.field in vaultVals;
    }
  }

  lemma AddsOneMore(a: map<SecretKey, string>, b: map<SecretKey, string>, c: map<SecretKey, string>, model: string,
                    fields: seq<string>, given: map<nat, Vals>, id: nat, vals: Vals)
    requires id !in given && Adds(a, b, model, fields, given) && Adds(b, c, model, fields, map[id := vals])
    ensures Adds(a, c, model, fields, given[id := vals])
  {
    forall k: SecretKey
      ensures IsGiven(model, fields, given[id := vals], k)
         <==> IsGiven(model, fields, given, k) || IsGiven(model, fields, map[id := vals], k)
    {
    }
  }

  // Without identifiers there were no secrets, and the columns are empty.
  lemma NothingGiven(model: string, fields: seq<string>, given: map<nat, Vals>, table: map<nat, Vals>)
    requires forall id :: id in given ==> id in table && Filled(table[id], given[id], fields, map[])
    ensures forall k :: !IsGiven(model, fields, given, k)
    ensures forall id :: id in given ==> table[id] == map f | f in fields :: None
  {
    forall id, f | id in given && f in fields
      ensures Value(given[id], f).None? && table[id][f].None?
    {
      assert Stands(table[id][f], Value(given[id], f), map[]);
    }
  }

  // Setting the values of the secret fields alone is setting all values.
  lemma UpdatedSame(secrets: map<SecretKey, string>, model: string, ids: seq<nat>, fields: seq<string>, vals: Vals,
                    secretValues: Vals)
    requires secretValues == map f | f in vals && f in fields :: vals[f]
    ensures Updated(secrets, Keys(model, ids, Allowed(vals, Elements(fields))), vals)
         == Updated(secrets, Keys(model, ids, Allowed(secretValues, Elements(fields))), secretValues)
  {
    assert Allowed(vals, Elements(fields)) == Allowed(secretValues, Elements(fields));
  }

  class SecretModel {
    const model: string
    const fields: seq<string>
    const vault: VaultTable
    // The columns of the secret fields, by record.
    var table: map<nat, Vals>
    var next: nat

    ghost predicate Valid()
      reads this, vault
    {
      && vault.Valid()
      && (forall i, j :: 0 <= i < j < |fields| ==> fields[i] != fields[j])
      && (forall id :: id in table ==> id < next && table[id] == Cleared())
      && (forall k :: k in vault.secrets && k.model == model ==> k.id in table)
    }

    function Cleared(): Vals {
      map f | f in fields :: None
    }

    constructor (model: string, fields: seq<string>, vault: VaultTable)
      requires vault.Valid() && forall k :: k in vault.secrets ==> k.model != model
      requires forall i, j :: 0 <= i < j < |fields| ==> fields[i] != fields[j]
      ensures Valid() && this.model == model && this.fields == fields && this.vault == vault && table == map[]
    {
      this.model, this.fields, this.vault := model, fields, vault;
      table, next := map[], 0;
    }

    /** The secrets move out of the batch, each leaving an identifier of its own. */
    method ExtractAndReplaceSecretFields(batch: array<Vals>) returns (secretVals: map<string, string>)
      requires forall i, j :: 0 <= i < j < |fields| ==> fields[i] != fields[j]
      modifies batch
      ensures forall i :: 0 <= i < batch.Length ==> Replaced(old(batch[i]), batch[i], fields, secretVals)
    {
      var counter: nat := 0;
      secretVals := map[];
      for i := 0 to batch.Length
        invariant Numbered(secretVals, counter)
        invariant forall j :: 0 <= j < i ==> Replaced(old(batch[j]), batch[j], fields, secretVals)
        invariant forall j :: i <= j < batch.Length ==> batch[j] == old(batch[j])
      {
        var vals;
        vals, secretVals, counter := ReplaceSecretFields(batch[i], secretVals, counter);
        batch[i] := vals;
      }
    }

    method ReplaceSecretFields(before: Vals, known: map<string, string>, start: nat)
      returns (vals: Vals, secretVals: map<string, string>, counter: nat)
      requires forall i, j :: 0 <= i < j < |fields| ==> fields[i] != fields[j]
      requires Numbered(known, start)
      ensures Replaced(before, vals, fields, secretVals) && Numbered(secretVals, counter)
      ensures Within(known, secretVals)
    {
      hide Numbered, References.Decimal;
      vals, secretVals, counter := before, known, start;
      for n := 0 to |fields|
        invariant Replaced(before, vals, fields[..n], secretVals) && Numbered(secretVals, counter)
        invariant Within(known, secretVals)
      {
        assert fields[..n + 1] == fields[..n] + [fields[n]];
        var f := fields[n];
        if f in vals && vals[f].Some? {
          counter := counter + 1;
          var identifier := References.Decimal(counter);
          ghost var smaller := secretVals;
          secretVals := secretVals[identifier := vals[f].value];
          NextNumberFresh(smaller, counter - 1, vals[f].value);
          vals := vals[f := Some(identifier)];
        }
      }
      assert fields[..|fields|] == fields;
    }

    // One insert for the whole batch.
    method InsertRecords(batch: seq<Vals>) returns (ids: seq<nat>)
      requires forall id :: id in table ==> id < next
      modifies this`table, this`next
      ensures next == old(next) + |batch| && ids == Numbers(old(next), |batch|)
      ensures table.Keys == old(table).Keys + ById(batch, old(next)).Keys
      ensures forall id :: id in old(table) ==> table[id] == old(table)[id]
      ensures forall id :: id in ById(batch, old(next)) ==> table[id] == Columns(ById(batch, old(next))[id])
    {
      hide ById, Columns;
      ids := [];
      ByIdNone(batch, next);
      for i := 0 to |batch|
        invariant next == old(next) + i && ids == Numbers(old(next), i)
        invariant table.Keys == old(table).Keys + ById(batch[..i], old(next)).Keys
        invariant forall id :: id in old(table) ==> table[id] == old(table)[id]
        invariant forall id :: id in ById(batch[..i], old(next)) ==>
                    table[id] == Columns(ById(batch[..i], old(next))[id])
      {
        ByIdGrows(batch, old(next), i);
        table, ids, next := table[next := Columns(batch[i])], ids + [next], next + 1;
      }
      assert batch[..|batch|] == batch;
    }

    function Columns(vals: Vals): Vals {
      map f | f in fields :: Value(vals, f)
    }

    // The secrets of one new record, found by the identifiers in its columns.
    method ProcessSingleRecordSecrets(id: nat, columns: Vals, secretVals: map<string, string>, ghost given: Vals)
      requires vault.Valid() && Filled(columns, given, fields, secretVals)
      modifies vault
      ensures vault.Valid()
      ensures Adds(old(vault.secrets), vault.secrets, model, fields, map[id := given])
    {
      var vaultVals := CollectSecrets(columns, secretVals, given);
      if vaultVals != map[] {
        vault.SetSecretValues(model, Elements(fields), [id], vaultVals);
      }
      GivenIsUpdate(old(vault.secrets), model, fields, given, id, vaultVals);
    }

    method CollectSecrets(columns: Vals, secretVals: map<string, string>, ghost given: Vals) returns (vaultVals: Vals)
      requires Filled(columns, given, fields, secretVals)
      ensures vaultVals == map f | f in fields && Kept(Value(given, f)) :: Value(given, f)
    {
      vaultVals := map[];
      for n := 0 to |fields|
        invariant vaultVals == map f | f in fields[..n] && Kept(Value(given, f)) :: Value(given, f)
      {
        assert fields[..n + 1] == fields[..n] + [fields[n]];
        var identifier := columns[fields[n]];
        if identifier.Some? && identifier.value in secretVals && secretVals[identifier.value] != "" {
          vaultVals := vaultVals[fields[n] := Some(secretVals[identifier.value])];
        }
      }
      assert fields[..|fields|] == fields;
    }

    method ClearTempValues(ids: seq<nat>)
      modifies this`table
      ensures table == map id | id in old(table) :: if id in ids then Cleared() else old(table)[id]
    {
      table := map id | id in table :: if id in ids then Cleared() else table[id];
    }

    // The records come back in any order.
    method ProcessSecretValuesAfterCreation(ids: seq<nat>, secretVals: map<string, string>, ghost given: map<nat, Vals>)
      requires vault.Valid() && given.Keys == Elements(ids)
      requires forall id :: id in given ==> id in table && Filled(table[id], given[id], fields, secretVals)
      modifies this`table, vault
      ensures vault.Valid()
      ensures Adds(old(vault.secrets), vault.secrets, model, fields, given)
      ensures table == map id | id in old(table) :: if id in ids then Cleared() else old(table)[id]
    {
      var todo := Elements(ids);
      ghost var done: map<nat, Vals> := map[];
      while todo != {}
        invariant todo <= Elements(ids) && done == map id | id in given && id !in todo :: given[id]
        invariant vault.Valid() && table == old(table)
        invariant Adds(old(vault.secrets), vault.secrets, model, fields, done)
      {
        var id :| id in todo;
        ghost var before := vault.secrets;
        ProcessSingleRecordSecrets(id, table[id], secretVals, given[id]);
        AddsOneMore(old(vault.secrets), before, vault.secrets, model, fields, done, id, given[id]);
        todo, done := todo - {id}, done[id := given[id]];
      }
      assert done == given;
      ClearTempValues(ids);
    }

    /** Main result: creating records in a batch adds exactly the secrets given for them that are not empty, each
        under its record and field, and leaves every column of a secret field empty. */
    method Create(batch: array<Vals>) returns (ids: seq<nat>)
      requires Valid()
      modifies this, vault, batch
      ensures Valid() && vault.Valid()
      ensures ids == Numbers(old(next), batch.Length)
      ensures Adds(old(vault.secrets), vault.secrets, model, fields, ById(old(batch[..]), old(next)))
      ensures table.Keys == old(table).Keys + Elements(ids)
    {
      ghost var given := ById(batch[..], next);
      ghost var before := batch[..];
      var secretVals := ExtractAndReplaceSecretFields(batch);
      ids := InsertRecords(batch[..]);
      forall id | id in given
        ensures Filled(table[id], given[id], fields, secretVals)
      {
        assert Replaced(before[id - old(next)], batch[id - old(next)], fields, secretVals);
        ColumnsFilled(given[id], ById(batch[..], old(next))[id], secretVals);
      }
      if secretVals != map[] {
        ProcessSecretValuesAfterCreation(ids, secretVals, given);
      } else {
        NothingGiven(model, fields, given, table);
      }
    }

    lemma ColumnsFilled(before: Vals, after: Vals, secretVals: map<string, string>)
      requires Replaced(before, after, fields, secretVals)
      ensures Filled(Columns(after), before, fields, secretVals)
    {
    }

    method SplitSecretFields(vals: Vals) returns (secretValues: Vals, rest: Vals)
      ensures secretValues == map f | f in vals && f in fields :: vals[f]
      ensures rest == map f | f in vals && f !in fields :: vals[f]
    {
      secretValues, rest := map[], vals;
      for n := 0 to |fields|
        invariant rest == map f | f in vals && f !in fields[..n] :: vals[f]
        invariant secretValues == map f | f in vals && f in fields[..n] :: vals[f]
      {
        assert fields[..n + 1] == fields[..n] + [fields[n]];
        if fields[n] in rest {
          secretValues, rest := secretValues[fields[n] := rest[fields[n]]], rest - {fields[n]};
        }
      }
      assert fields[..|fields|] == fields;
    }

    /** Writing sets the secrets of all the records, empty strings included, and passes on the other values only. */
    method Write(ids: seq<nat>, vals: Vals) returns (rest: Vals)
      requires Valid() && Distinct(ids) && forall id :: id in ids ==> id in table
      modifies vault
      ensures Valid() && vault.Valid()
      ensures vault.secrets == Updated(old(vault.secrets), Keys(model, ids, Allowed(vals, Elements(fields))), vals)
      ensures rest == map f | f in vals && f !in fields :: vals[f]
    {
      var secretValues;
      secretValues, rest := SplitSecretFields(vals);
      UpdatedSame(vault.secrets, model, ids, fields, vals, secretValues);
      if secretValues != map[] {
        vault.SetSecretValues(model, Elements(fields), ids, secretValues);
      } else {
        assert vault.secrets == Updated(vault.secrets, {}, secretValues);
      }
    }

    /** Deleting records deletes all their secrets and no others. */
    method Unlink(ids: seq<nat>)
      requires Valid()
      modifies this`table, vault
      ensures Valid() && vault.Valid()
      ensures vault.secrets
           == map k | k in old(vault.secrets) && !(k.model == model && k.id in ids) :: old(vault.secrets)[k]
      ensures table == map id | id in old(table) && id !in ids :: old(table)[id]
    {
      table := map id | id in table && id !in ids :: table[id];
      vault.UnlinkRecords(model, ids);
    }

    /** Reading gives exactly the secrets of the records in the fields asked for, by default all secret fields. */
    method GetSecretValues(ids: seq<nat>, fieldsList: seq<string>) returns (r: map<nat, map<string, string>>)
      requires Valid()
      ensures var wanted := Elements(if fieldsList == [] then fields else fieldsList) * Elements(fields);
              Shows(r, model, map k | k in vault.secrets && k in Keys(model, ids, wanted) :: vault.secrets[k])
    {
      if ids == [] {
        return map[];
      }
      var toFetch := Elements(if fieldsList == [] then fields else fieldsList) * Elements(fields);
      if toFetch == {} {
        return map[];
      }
      r := vault.Read(model, ids, toFetch);
    }
  }
}
