/**
 * The `Dataset` entity of spendb: its descriptive attributes, the metadata
 * document `data` (the manifest minus its `dataset` section, later holding
 * `fields` and the dimensional `model`), the lazily built and memoised
 * dimensional model, and the two registry queries (listing by visibility,
 * lookup by name).
 *
 * Collaborators the entity only calls are parameters or stand-ins:
 *  - `modelExists` is babbage's `Model(spec).exists`, a predicate on the
 *    model specification (it asks whether the schema fits the fact table);
 *  - the fact table is its name and an existence flag;
 *  - `Cube.compute_cardinalities()` is recorded in `cardinalityLog`;
 *  - the wall clock is a counter: `Touch` bumps `updatedAt` by one.
 */
module Datasets {
  import opened Wrappers
  import opened Json
  import opened LabelOrder

  const DatasetKey := "dataset"
  const ModelKey := "model"
  const FieldsKey := "fields"
  const FactTableKey := "fact_table"

  /* ---------------------------------------------------------------------
   * Descriptive attributes and the partial update
   * ------------------------------------------------------------------- */

  /**
   * The attributes `update` assigns.  `title` is the source's `label`
   * (a reserved word in Dafny).
   */
  datatype Attributes = Attributes(
    title: Option<string>,
    description: Option<string>,
    currency: Option<string>,
    category: Option<string>,
    private: Option<bool>,
    languages: seq<string>,
    territories: seq<string>)

  /** A freshly stored row: no text, `private` at its column default. */
  function Initial(): Attributes
  {
    Attributes(None, None, None, None, Some(false), [], [])
  }

  /** The `dataset` section holds values of the types of the columns it feeds. */
  predicate WellTypedSection(s: Doc)
  {
    && ("name" in s ==> IsText(s["name"]))
    && ("label" in s ==> IsText(s["label"]))
    && ("description" in s ==> IsText(s["description"]))
    && ("currency" in s ==> IsText(s["currency"]))
    && ("category" in s ==> IsText(s["category"]))
    && ("private" in s ==> IsFlag(s["private"]))
    && ("languages" in s ==> IsCodeList(s["languages"]))
    && ("territories" in s ==> IsCodeList(s["territories"]))
  }

  /** The attributes after `update(s)`; the specification of `Dataset.Update`. */
  function Apply(a: Attributes, s: Doc): Attributes
    requires WellTypedSection(s)
  {
    Attributes(
      title := AsText(Get(s, "label")),
      description := if "description" in s then AsText(s["description"]) else a.description,
      currency := if "currency" in s then AsText(s["currency"]) else a.currency,
      category := if "category" in s then AsText(s["category"]) else a.category,
      private := if "private" in s then AsFlag(s["private"]) else a.private,
      languages := if "languages" in s then AsCodes(s["languages"].items) else a.languages,
      territories := if "territories" in s then AsCodes(s["territories"].items) else a.territories)
  }

  /**
   * `update` is partial for every attribute but the label: an attribute
   * whose key is absent keeps its value, one whose key is present takes the
   * value given, and the label is replaced in every case (by NULL when the
   * key is absent).
   */
  lemma UpdateIsPartialExceptLabel(a: Attributes, s: Doc)
    requires WellTypedSection(s)
    ensures Apply(a, s).title == (if "label" in s then AsText(s["label"]) else None)
    ensures "description" !in s ==> Apply(a, s).description == a.description
    ensures "currency" !in s ==> Apply(a, s).currency == a.currency
    ensures "category" !in s ==> Apply(a, s).category == a.category
    ensures "private" !in s ==> Apply(a, s).private == a.private
    ensures "languages" !in s ==> Apply(a, s).languages == a.languages
    ensures "territories" !in s ==> Apply(a, s).territories == a.territories
    ensures "description" in s ==> Apply(a, s).description == AsText(s["description"])
    ensures "currency" in s ==> Apply(a, s).currency == AsText(s["currency"])
    ensures "category" in s ==> Apply(a, s).category == AsText(s["category"])
    ensures "private" in s ==> Apply(a, s).private == AsFlag(s["private"])
    ensures "languages" in s ==> JArr(CodesValue(Apply(a, s).languages)) == s["languages"]
    ensures "territories" in s ==> JArr(CodesValue(Apply(a, s).territories)) == s["territories"]
  {
    if "languages" in s {
      CodesEncodeDecoded(s["languages"].items);
    }
    if "territories" in s {
      CodesEncodeDecoded(s["territories"].items);
    }
  }

  /** Encoding the codes read from a list of strings gives that list back. */
  lemma {:induction false} CodesEncodeDecoded(items: seq<Json>)
    requires AllText(items)
    ensures CodesValue(AsCodes(items)) == items
  {
    if items != [] {
      CodesEncodeDecoded(items[1..]);
    }
  }

  /** Applying the same section twice is the same as applying it once. */
  lemma UpdateIdempotent(a: Attributes, s: Doc)
    requires WellTypedSection(s)
    ensures Apply(Apply(a, s), s) == Apply(a, s)
  {
  }

  /**
   * Two updates in a row equal one update with the merged section when the
   * second one carries a label or the first one does not: the unconditional
   * label assignment is what can break the merge (see `LabelNotMerged`).
   */
  lemma UpdatesMerge(a: Attributes, s1: Doc, s2: Doc)
    requires WellTypedSection(s1) && WellTypedSection(s2)
    requires "label" in s2 || "label" !in s1
    ensures WellTypedSection(s1 + s2)
    ensures Apply(Apply(a, s1), s2) == Apply(a, s1 + s2)
  {
    var s := s1 + s2;
    assert WellTypedSection(s) by {
      assert forall k :: k in s ==> s[k] == if k in s2 then s2[k] else s1[k];
    }
    var twice, once := Apply(Apply(a, s1), s2), Apply(a, s);
    assert twice.title == once.title;
    assert twice.description == once.description;
    assert twice.currency == once.currency;
    assert twice.category == once.category;
    assert twice.private == once.private;
    assert twice.languages == once.languages;
    assert twice.territories == once.territories;
  }

  /** The witness that the label is not merged: a label-less second update clears it. */
  lemma LabelNotMerged(a: Attributes)
    ensures var s1 := map["label" := JStr("Budget")];
            Apply(Apply(a, s1), map[]) != Apply(a, s1 + map[])
  {
  }

  /* ---------------------------------------------------------------------
   * The dimensional model and its lazy construction
   * ------------------------------------------------------------------- */

  /** A babbage model built from a specification (it keeps that mapping). */
  datatype Model = Model(spec: Doc)

  /** A babbage query cube: the dataset name, its model and the fact table. */
  datatype Cube = Cube(dataset: Option<string>, model: Model, factTable: string)

  /** The specification with the fact table's name written into it. */
  function Bind(spec: Doc, table: string): (bound: Doc)
    ensures FactTableKey in bound && bound[FactTableKey] == JStr(table)
    ensures bound.Keys == spec.Keys + {FactTableKey}
    ensures forall k :: k in spec && k != FactTableKey ==> bound[k] == spec[k]
  {
    spec[FactTableKey := JStr(table)]
  }

  /**
   * What the model getter leaves in `data` when it finds no memoised model:
   * once the fact table exists and `data['model']` is a mapping, the
   * fact table's name is written into that mapping, before babbage is asked
   * whether the model exists.
   */
  function Prepare(data: Doc, tableExists: bool, table: string): (r: Doc)
    ensures r.Keys == data.Keys
    ensures forall k :: k in data && k != ModelKey ==> r[k] == data[k]
  {
    if tableExists && ModelKey in data && data[ModelKey].JObj?
    then data[ModelKey := JObj(Bind(data[ModelKey].fields, table))]
    else data
  }

  /** The model the getter builds when nothing is memoised, or None. */
  function Materialize(data: Doc, tableExists: bool, table: string,
                       modelExists: Doc -> bool): (r: Option<Model>)
    ensures r.Some? ==> tableExists
    ensures r.Some? ==> ModelKey in data && data[ModelKey].JObj?
    ensures r.Some? ==> modelExists(r.value.spec)
    ensures r.Some? ==> Prepare(data, tableExists, table)[ModelKey] == JObj(r.value.spec)
    ensures r.Some? ==> FactTableKey in r.value.spec && r.value.spec[FactTableKey] == JStr(table)
  {
    if tableExists && ModelKey in data && data[ModelKey].JObj?
       && modelExists(Bind(data[ModelKey].fields, table))
    then Some(Model(Bind(data[ModelKey].fields, table)))
    else None
  }

  /**
   * The three ways the getter yields no model: no fact table, no mapping
   * under `model`, or a model babbage reports as not existing.  Every other
   * case yields one.
   */
  lemma NoModelExactly(data: Doc, tableExists: bool, table: string, modelExists: Doc -> bool)
    ensures Materialize(data, tableExists, table, modelExists).None?
        <==> || !tableExists
             || ModelKey !in data
             || !data[ModelKey].JObj?
             || !modelExists(Bind(data[ModelKey].fields, table))
  {
  }

  /**
   * Preparing is idempotent and does not change what is built, so a
   * getter call after a failed one (or after a reload that cleared the
   * memo) reaches the same answer and leaves the same document.
   */
  lemma PrepareStable(data: Doc, tableExists: bool, table: string, modelExists: Doc -> bool)
    ensures Prepare(Prepare(data, tableExists, table), tableExists, table)
         == Prepare(data, tableExists, table)
    ensures Materialize(Prepare(data, tableExists, table), tableExists, table, modelExists)
         == Materialize(data, tableExists, table, modelExists)
  {
    if tableExists && ModelKey in data && data[ModelKey].JObj? {
      var spec := data[ModelKey].fields;
      assert Bind(Bind(spec, table), table) == Bind(spec, table);
    }
  }

  /**
   * Assigning the same model specification twice leaves the document of
   * one assignment: the schema is stored identically both times.
   */
  lemma AssignTwiceSameDocument(data: Doc, spec: Json, tableExists: bool, table: string)
    ensures var once := Prepare(data[ModelKey := spec], tableExists, table);
            Prepare(once[ModelKey := spec], tableExists, table) == once
  {
  }

  /* ---------------------------------------------------------------------
   * Serialised projections
   * ------------------------------------------------------------------- */

  /** `to_dict()` (without `api_url`, which a routing collaborator resolves). */
  function Summary(name: Option<string>, a: Attributes, createdAt: nat, updatedAt: nat,
                   hasModel: bool): Doc
  {
    map[
      "label" := TextValue(a.title),
      "name" := TextValue(name),
      "description" := TextValue(a.description),
      "currency" := TextValue(a.currency),
      "category" := TextValue(a.category),
      "private" := FlagValue(a.private),
      "created_at" := JNum(createdAt),
      "updated_at" := JNum(updatedAt),
      "languages" := JArr(CodesValue(a.languages)),
      "territories" := JArr(CodesValue(a.territories)),
      "has_model" := JBool(hasModel)]
  }

  /**
   * A serialised dataset is a well-typed `dataset` section, and feeding it
   * back to `update` (whatever the attributes were before) or to the
   * constructor reproduces the name and every attribute.
   */
  lemma SummaryRoundTrip(name: Option<string>, a: Attributes, createdAt: nat, updatedAt: nat,
                         hasModel: bool, before: Attributes)
    ensures var s := Summary(name, a, createdAt, updatedAt, hasModel);
            && WellTypedSection(s)
            && AsText(Get(s, "name")) == name
            && Apply(before, s) == a
            && s["has_model"] == JBool(hasModel)
  {
    CodesRoundTrip(a.languages);
    CodesRoundTrip(a.territories);
  }

  /** `to_full_dict()`: the document with `dataset` replaced by `to_dict()`. */
  function FullDict(data: Doc, summary: Doc): (full: Doc)
  {
    data[DatasetKey := JObj(summary)]
  }

  /**
   * The full dictionary keeps every key of the document and adds only
   * `dataset`; splitting that section off again, as the constructor does,
   * gives back exactly the document.
   */
  lemma FullDictSplitsBack(data: Doc, summary: Doc)
    requires DatasetKey !in data
    ensures FullDict(data, summary).Keys == data.Keys + {DatasetKey}
    ensures forall k :: k in data ==> FullDict(data, summary)[k] == data[k]
    ensures FullDict(data, summary)[DatasetKey] == JObj(summary)
    ensures FullDict(data, summary) - {DatasetKey} == data
  {
  }

  /* ---------------------------------------------------------------------
   * The entity
   * ------------------------------------------------------------------- */

  class Dataset {
    var name: Option<string>
    var title: Option<string>
    var description: Option<string>
    var currency: Option<string>
    var category: Option<string>
    var private: Option<bool>
    var languages: seq<string>
    var territories: seq<string>
    /** Ids of the accounts that manage the dataset. */
    var managers: set<int>
    var createdAt: nat
    var updatedAt: nat
    /** The metadata document: `fields`, `model` and whatever else the manifest held. */
    var data: Doc
    var factTableExists: bool
    const factTableName: string
    /** The memoised model (`_model`). */
    var memo: Option<Model>
    /** Every cube whose cardinalities were computed, oldest first. */
    var cardinalityLog: seq<Cube>

    ghost predicate Valid()
      reads this
    {
      && createdAt <= updatedAt
      && DatasetKey !in data
      && (memo.Some? ==>
            && ModelKey in data
            && data[ModelKey] == JObj(memo.value.spec)
            && FactTableKey in memo.value.spec
            && memo.value.spec[FactTableKey] == JStr(factTableName))
    }

    function Attrs(): Attributes
      reads this
    {
      Attributes(title, description, currency, category, private, languages, territories)
    }

    /** What the registry's queries see of this dataset. */
    function Snapshot(): Row
      reads this
    {
      Row(name, title, private, managers)
    }

    /** The model the getter returns in the current state. */
    function Resolved(modelExists: Doc -> bool): Option<Model>
      reads this
    {
      if memo.Some? then memo
      else Materialize(data, factTableExists, factTableName, modelExists)
    }

    /** The document the getter leaves in the current state. */
    function Prepared(): Doc
      reads this
    {
      if memo.Some? then data else Prepare(data, factTableExists, factTableName)
    }

    /**
     * `Dataset(manifest)`: the `dataset` section is split off the document,
     * the name is read from it and `update` is applied to it.  The fact
     * table handle is given by its name and whether it exists.
     */
    constructor (manifest: Doc, tableName: string, tableExists: bool)
      requires DatasetKey in manifest && manifest[DatasetKey].JObj?
      requires WellTypedSection(manifest[DatasetKey].fields)
      ensures Valid()
      ensures data == manifest - {DatasetKey}
      ensures name == AsText(Get(manifest[DatasetKey].fields, "name"))
      ensures Attrs() == Apply(Initial(), manifest[DatasetKey].fields)
      ensures memo == None && cardinalityLog == [] && managers == {}
      ensures factTableName == tableName && factTableExists == tableExists
      ensures createdAt == updatedAt
    {
      data := manifest - {DatasetKey};
      var section := manifest[DatasetKey].fields;
      name := AsText(Get(section, "name"));
      title, description, currency, category := None, None, None, None;
      private := Some(false);
      languages, territories := [], [];
      managers := {};
      createdAt, updatedAt := 0, 0;
      factTableName, factTableExists := tableName, tableExists;
      memo := None;
      cardinalityLog := [];
      new;
      Update(section);
      Load();
    }

    /** `_load`: the fact table handle is rebuilt and the memo cleared. */
    method Load()
      modifies this`memo
      ensures memo == None
    {
      memo := None;
    }

    /** `update(dataset)`: the partial update of the descriptive attributes. */
    method Update(section: Doc)
      requires WellTypedSection(section)
      modifies this`title, this`description, this`currency, this`category,
               this`private, this`languages, this`territories
      ensures Attrs() == Apply(old(Attrs()), section)
    {
      title := AsText(Get(section, "label"));
      if "private" in section {
        private := AsFlag(section["private"]);
      }
      if "description" in section {
        description := AsText(section["description"]);
      }
      if "currency" in section {
        currency := AsText(section["currency"]);
      }
      if "category" in section {
        category := AsText(section["category"]);
      }
      if "languages" in section {
        languages := AsCodes(section["languages"].items);
      }
      if "territories" in section {
        territories := AsCodes(section["territories"].items);
      }
    }

    /**
     * The `model` getter.  A memoised model is returned as it is, without
     * looking at the fact table or the document again.  Otherwise the model
     * is built only when the fact table exists, `data['model']` is a
     * mapping and babbage reports the model as existing; only a built model
     * is memoised.
     */
    method GetModel(modelExists: Doc -> bool) returns (m: Option<Model>)
      requires Valid()
      modifies this`data, this`memo
      ensures Valid()
      ensures m == old(Resolved(modelExists))
      ensures old(memo).Some? ==> m == old(memo) && data == old(data)
      ensures old(memo).None? ==> data == Prepare(old(data), factTableExists, factTableName)
      ensures memo == m
    {
      if memo.None? {
        if !factTableExists {
          return None;
        }
        var spec := Get(data, ModelKey);
        if !spec.JObj? {
          return None;
        }
        var bound := Bind(spec.fields, factTableName);
        data := data[ModelKey := JObj(bound)];
        var model := Model(bound);
        if !modelExists(model.spec) {
          return None;
        }
        memo := Some(model);
      }
      m := memo;
    }

    /**
     * The `model` setter: the specification is stored, the memo cleared,
     * cardinalities are computed exactly when a model then materialises,
     * and the timestamp is bumped in every case.
     */
    method SetModel(spec: Json, modelExists: Doc -> bool)
      requires Valid()
      modifies this`data, this`memo, this`cardinalityLog, this`updatedAt
      ensures Valid()
      ensures data == Prepare(old(data)[ModelKey := spec], factTableExists, factTableName)
      ensures memo == Materialize(old(data)[ModelKey := spec], factTableExists, factTableName,
                                  modelExists)
      ensures cardinalityLog == old(cardinalityLog)
                + (if memo.Some? then [Cube(name, memo.value, factTableName)] else [])
      ensures updatedAt == old(updatedAt) + 1
    {
      data := data[ModelKey := spec];
      memo := None;
      var m := GetModel(modelExists);
      if m.Some? {
        var cube := GetCube(modelExists);
        ComputeCardinalities(cube.value);
      }
      Touch();
    }

    /** `cube`: a cube over the model, or None exactly when there is no model. */
    method GetCube(modelExists: Doc -> bool) returns (c: Option<Cube>)
      requires Valid()
      modifies this`data, this`memo
      ensures Valid()
      ensures c.Some? <==> old(Resolved(modelExists)).Some?
      ensures c.Some? ==> c.value == Cube(name, old(Resolved(modelExists)).value, factTableName)
      ensures memo == old(Resolved(modelExists))
      ensures data == old(Prepared())
    {
      var m := GetModel(modelExists);
      if m.Some? {
        var again := GetModel(modelExists);
        c := Some(Cube(name, again.value, factTableName));
      } else {
        c := None;
      }
    }

    /** The cardinality computation of babbage's cube, recorded. */
    method ComputeCardinalities(cube: Cube)
      modifies this`cardinalityLog
      ensures cardinalityLog == old(cardinalityLog) + [cube]
    {
      cardinalityLog := cardinalityLog + [cube];
    }

    /** The `fields` getter: `data['fields']`, an empty mapping when absent. */
    function Fields(): Json
      reads this
    {
      if FieldsKey in data then data[FieldsKey] else JObj(map[])
    }

    /** The `fields` setter: stores the field list and touches nothing else. */
    method SetFields(value: Json)
      requires Valid()
      modifies this`data
      ensures Valid()
      ensures data == old(data)[FieldsKey := value]
      ensures Fields() == value
    {
      data := data[FieldsKey := value];
    }

    /** `touch`: the timestamp used for cache invalidation moves forward. */
    method Touch()
      modifies this`updatedAt
      ensures updatedAt == old(updatedAt) + 1
    {
      updatedAt := updatedAt + 1;
    }

    /** `to_dict()`; `has_model` asks the model getter. */
    method ToDict(modelExists: Doc -> bool) returns (d: Doc)
      requires Valid()
      modifies this`data, this`memo
      ensures Valid()
      ensures d == Summary(name, Attrs(), createdAt, updatedAt,
                           old(Resolved(modelExists)).Some?)
      ensures memo == old(Resolved(modelExists))
      ensures data == old(Prepared())
    {
      var m := GetModel(modelExists);
      d := Summary(name, Attrs(), createdAt, updatedAt, m.Some?);
    }

    /**
     * `to_full_dict()`.  The source copies the document before calling
     * `to_dict`, but the copy is shallow: it shares the `model` mapping the
     * getter writes the fact table's name into, so the result shows the
     * document as it is after the getter ran.
     */
    method ToFullDict(modelExists: Doc -> bool) returns (full: Doc)
      requires Valid()
      modifies this`data, this`memo
      ensures Valid()
      ensures full == FullDict(data, Summary(name, Attrs(), createdAt, updatedAt,
                                             old(Resolved(modelExists)).Some?))
      ensures memo == old(Resolved(modelExists))
      ensures data == old(Prepared())
    {
      var d := ToDict(modelExists);
      full := FullDict(data, d);
    }
  }

  /* ---------------------------------------------------------------------
   * Registry queries
   * ------------------------------------------------------------------- */

  /** The capabilities of the requesting account. */
  datatype Account = Account(id: int, authenticated: bool, admin: bool)

  /** The columns the queries read. */
  datatype Row = Row(name: Option<string>, title: Option<string>, private: Option<bool>,
                     managers: set<int>)

  predicate HasUser(account: Option<Account>)
  {
    account.Some? && account.value.authenticated
  }

  predicate HasAdmin(account: Option<Account>)
  {
    HasUser(account) && account.value.admin
  }

  /**
   * The filter `all_by_account` applies when the caller is not an admin:
   * `private = false` (a NULL `private` does not satisfy it), or, for an
   * authenticated caller, being one of the managers.
   */
  predicate Listed(account: Option<Account>, row: Row)
  {
    row.private == Some(false) || (HasUser(account) && account.value.id in row.managers)
  }

  /** Whether the caller's listing includes the dataset. */
  predicate Visible(account: Option<Account>, row: Row)
  {
    HasAdmin(account) || Listed(account, row)
  }

  /** The rows that pass the visibility filter, in their original order. */
  function Filter(rows: seq<Row>, account: Option<Account>): (r: seq<Row>)
    ensures forall x :: multiset(r)[x] == if Listed(account, x) then multiset(rows)[x] else 0
  {
    if rows == [] then []
    else
      var rest := Filter(rows[1..], account);
      assert rows == [rows[0]] + rows[1..];
      if Listed(account, rows[0]) then [rows[0]] + rest else rest
  }

  predicate SortedByTitle(rows: seq<Row>)
  {
    forall i, j :: 0 <= i < j < |rows| ==> LabelLe(rows[i].title, rows[j].title)
  }

  function Insert(x: Row, rows: seq<Row>): (r: seq<Row>)
    requires SortedByTitle(rows)
    ensures SortedByTitle(r)
    ensures multiset(r) == multiset(rows) + multiset{x}
  {
    if rows == [] then [x]
    else if LabelLe(x.title, rows[0].title) then
      assert forall j :: 0 <= j < |rows| ==> LabelLe(x.title, rows[j].title) by {
        forall j | 0 <= j < |rows| ensures LabelLe(x.title, rows[j].title) {
          if j > 0 { LabelLeTransitive(x.title, rows[0].title, rows[j].title); }
        }
      }
      [x] + rows
    else
      var rest := Insert(x, rows[1..]);
      LabelLeTotal(x.title, rows[0].title);
      assert rows == [rows[0]] + rows[1..];
      forall k | 0 <= k < |rest| ensures LabelLe(rows[0].title, rest[k].title) {
        assert rest[k] in multiset(rest);
        if rest[k] != x {
          assert rest[k] in multiset(rows[1..]);
          var j :| 0 <= j < |rows[1..]| && rows[1..][j] == rest[k];
          assert rows[j + 1] == rest[k];
        }
      }
      [rows[0]] + rest
  }

  /** `ORDER BY label ASC`: the same rows, ascending by label. */
  function SortByTitle(rows: seq<Row>): (r: seq<Row>)
    ensures SortedByTitle(r)
    ensures multiset(r) == multiset(rows)
  {
    if rows == [] then []
    else
      assert rows == [rows[0]] + rows[1..];
      Insert(rows[0], SortByTitle(rows[1..]))
  }

  /**
   * `all_by_account(account, order)`: an admin gets every dataset, anyone
   * else the filtered ones; with `order` they come ascending by label.
   * Every visible dataset appears as often as in the registry, and no other.
   */
  function AllByAccount(rows: seq<Row>, account: Option<Account>, order: bool): (r: seq<Row>)
    ensures forall x :: multiset(r)[x] == if Visible(account, x) then multiset(rows)[x] else 0
    ensures order ==> SortedByTitle(r)
  {
    var q := if HasAdmin(account) then rows else Filter(rows, account);
    if order then SortByTitle(q) else q
  }

  /** Listing never adds datasets. */
  lemma ListingNeverAdds(rows: seq<Row>, account: Option<Account>, order: bool)
    ensures multiset(AllByAccount(rows, account, order)) <= multiset(rows)
    ensures |AllByAccount(rows, account, order)| <= |rows|
  {
    var r := AllByAccount(rows, account, order);
    assert multiset(r) <= multiset(rows);
    assert |multiset(r)| <= |multiset(rows)| by {
      MultisetSubsetSize(multiset(r), multiset(rows));
    }
  }

  lemma MultisetSubsetSize<T>(a: multiset<T>, b: multiset<T>)
    requires a <= b
    ensures |a| <= |b|
  {
    assert b == a + (b - a);
  }

  /** An admin sees every dataset. */
  lemma AdminSeesAll(rows: seq<Row>, account: Option<Account>, order: bool)
    requires HasAdmin(account)
    ensures multiset(AllByAccount(rows, account, order)) == multiset(rows)
  {
  }

  /** An authenticated non-admin sees the public datasets and those they manage. */
  lemma MemberSeesPublicAndManaged(rows: seq<Row>, account: Option<Account>, order: bool)
    requires HasUser(account) && !HasAdmin(account)
    ensures forall x :: x in AllByAccount(rows, account, order)
                    <==> x in rows && (x.private == Some(false) || account.value.id in x.managers)
  {
    var r := AllByAccount(rows, account, order);
    forall x
      ensures x in r <==> x in rows && (x.private == Some(false) || account.value.id in x.managers)
    {
      assert x in r <==> multiset(r)[x] > 0;
      assert x in rows <==> multiset(rows)[x] > 0;
    }
  }

  /** An anonymous or unauthenticated caller sees exactly the public datasets. */
  lemma AnonymousSeesPublic(rows: seq<Row>, account: Option<Account>, order: bool)
    requires !HasUser(account)
    ensures forall x :: x in AllByAccount(rows, account, order)
                    <==> x in rows && x.private == Some(false)
  {
    var r := AllByAccount(rows, account, order);
    forall x ensures x in r <==> x in rows && x.private == Some(false) {
      assert x in r <==> multiset(r)[x] > 0;
      assert x in rows <==> multiset(rows)[x] > 0;
    }
  }

  /**
   * A private dataset is left out of an anonymous listing and is in the
   * listing of an authenticated account that manages it.
   */
  lemma PrivateDatasetVisibility(rows: seq<Row>, k: nat, manager: Account, order: bool)
    requires k < |rows| && rows[k].private == Some(true)
    requires manager.authenticated && manager.id in rows[k].managers
    ensures rows[k] !in AllByAccount(rows, None, order)
    ensures rows[k] in AllByAccount(rows, Some(manager), order)
  {
    var anonymous := AllByAccount(rows, None, order);
    var managed := AllByAccount(rows, Some(manager), order);
    assert multiset(anonymous)[rows[k]] == 0;
    assert rows[k] in multiset(rows);
    assert multiset(managed)[rows[k]] > 0;
  }

  /**
   * Marking a dataset private through `update` takes it out of the
   * anonymous listing and keeps it in the listing of an account that
   * manages it.
   */
  method MakePrivateThenList(d: Dataset, rows: seq<Row>, k: nat, manager: Account, order: bool)
    requires k < |rows|
    requires manager.authenticated && manager.id in d.managers
    modifies d
    ensures d.private == Some(true)
    ensures d.Snapshot() !in AllByAccount(rows[k := d.Snapshot()], None, order)
    ensures d.Snapshot() in AllByAccount(rows[k := d.Snapshot()], Some(manager), order)
  {
    d.Update(map["private" := JBool(true)]);
    PrivateDatasetVisibility(rows[k := d.Snapshot()], k, manager, order);
  }

  /**
   * `by_name(name)`: the first dataset whose name equals `name`, or None;
   * a miss is not an error.
   */
  function ByName(rows: seq<Row>, name: Option<string>): (r: Option<Row>)
    ensures r.None? <==> forall i :: 0 <= i < |rows| ==> rows[i].name != name
    ensures r.Some? ==> exists i :: 0 <= i < |rows| && rows[i] == r.value
                                 && r.value.name == name
                                 && forall j :: 0 <= j < i ==> rows[j].name != name
  {
    if rows == [] then None
    else if rows[0].name == name then Some(rows[0])
    else
      var r := ByName(rows[1..], name);
      if r.Some? then
        var i :| 0 <= i < |rows[1..]| && rows[1..][i] == r.value && r.value.name == name
                 && forall j :: 0 <= j < i ==> rows[1..][j].name != name;
        assert rows[i + 1] == r.value;
        assert forall j :: 0 <= j < i + 1 ==> rows[j].name != name by {
          forall j | 0 <= j < i + 1 ensures rows[j].name != name {
            if j > 0 { assert rows[j] == rows[1..][j - 1]; }
          }
        }
        r
      else
        r
  }

  /** The database's unique constraint on `name` (NULL names may repeat). */
  predicate UniqueNames(rows: seq<Row>)
  {
    forall i, j :: 0 <= i < |rows| && 0 <= j < |rows| && i != j && rows[i].name.Some?
      ==> rows[i].name != rows[j].name
  }

  /** With unique names, a lookup finds the one dataset of that name. */
  lemma ByNameFindsTheOne(rows: seq<Row>, k: nat)
    requires UniqueNames(rows)
    requires k < |rows| && rows[k].name.Some?
    ensures ByName(rows, rows[k].name) == Some(rows[k])
  {
  }

  /**
   * A dataset registered under a name no other dataset has is what a
   * later lookup by that name returns.
   */
  lemma {:induction false} LookupAfterCreate(rows: seq<Row>, created: Row)
    requires forall i :: 0 <= i < |rows| ==> rows[i].name != created.name
    ensures ByName(rows + [created], created.name) == Some(created)
  {
    if rows != [] {
      assert (rows + [created])[1..] == rows[1..] + [created];
      LookupAfterCreate(rows[1..], created);
    }
  }
}
