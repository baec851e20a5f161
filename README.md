# spendb Dataset, modelled in Dafny

This project models the `Dataset` entity of spendb, a public-finance data
platform (`spendb/model/dataset.py`). A dataset is built from an ingestion
manifest. Its descriptive attributes follow a partial update. It holds a
metadata document (`data`) with the field list and the dimensional model
specification. It builds its babbage model lazily and memoises it. Assigning
a model triggers cardinality computation and bumps the cache-invalidation
timestamp. The registry lists datasets by visibility and looks them up by
name.

Files:

- `wrappers.dfy` (`Wrappers`): `Option`.
- `json.dfy` (`Json`): JSON values, Python's `dict.get`, and the typed
  readings the dataset's columns apply (nullable text, nullable boolean,
  list of codes), with their encodings back to JSON.
- `label_order.dfy` (`LabelOrder`): the order `ORDER BY label ASC` uses. Text
  is compared character by character and a NULL label sorts last.
- `dataset.dfy` (`Datasets`): the class `Dataset`, the pure functions that
  specify its methods, the `to_dict`/`to_full_dict` projections, and the two
  queries `all_by_account` and `by_name` over a sequence of `Row` snapshots.

How the model stands in for the collaborators:

- babbage's `Model(spec).exists` is a parameter `modelExists: Doc -> bool` of
  every operation that reaches the model getter.
- `Cube.compute_cardinalities()` appends the cube to `cardinalityLog`.
- The fact table is its name (`factTableName`, given at construction) and an
  existence flag (`factTableExists`).
- `datetime.utcnow()` is a counter: `Touch` adds one to `updatedAt`.
- The database is plain fields; queries run over `seq<Row>`.
- The source's attribute `label` is called `title`, because `label` is a
  reserved word in Dafny.

Where the code and the documented design of the system differ, the model
follows the code:

- `update` always overwrites the label, to NULL when the key is absent
  (dataset.py:51). Only the other attributes are partial.
  `UpdatesMerge` and `LabelNotMerged` show the consequence.
- `update` silently ignores a `name` key. It does not reject it.
- The ordering has no tie-break by name (dataset.py:147).
- The constructor takes `name` with `.get`, so a missing name gives NULL and
  is not an error (dataset.py:41).
- The filter `private == False` is SQL, so a dataset whose `private` is NULL
  is hidden from everyone but admins and its managers.
- `to_full_dict` copies the document before it calls the getter. The copy is
  shallow, though, so the `fact_table` entry the getter writes into the
  `model` mapping shows in the result too.

## Model

| member | source | states |
|---|---|---|
| `Datasets.Dataset.constructor` | spendb/model/dataset.py:37-48 | The `dataset` section is removed from the stored document and everything else is kept. `name` is read from the section (NULL if absent). The attributes are `update` applied to the section. The memo starts empty. |
| `Datasets.Dataset.Load` | spendb/model/dataset.py:45-48 | Reloading clears the memoised model. |
| `Datasets.Dataset.Update` | spendb/model/dataset.py:50-63 | The attributes after the call are `Apply` of the old attributes and the section. `name`, `data` and the memo are outside its frame. |
| `Datasets.UpdateIsPartialExceptLabel` | spendb/model/dataset.py:50-63 | The label is replaced in every case. Every other attribute keeps its value when its key is absent and takes the given value when present. |
| `Datasets.CodesEncodeDecoded` | spendb/model/dataset.py:60-63 | Reading the codes out of a list of strings and writing them back gives the same list. |
| `Datasets.UpdateIdempotent` | spendb/model/dataset.py:50-63 | Applying the same section twice equals applying it once. |
| `Datasets.UpdatesMerge` | spendb/model/dataset.py:50-63 | Two updates equal one update with the merged section when the second carries a label or the first does not. |
| `Datasets.LabelNotMerged` | spendb/model/dataset.py:51 | A concrete case where a label-less second update clears the label that the merged section would keep. |
| `Datasets.Bind` | spendb/model/dataset.py:73 | The fact table's name is stored under `fact_table`. Every other key of the specification is unchanged. |
| `Datasets.Prepare` | spendb/model/dataset.py:68-73 | The getter's write touches only the `model` entry of the document. |
| `Datasets.Materialize` | spendb/model/dataset.py:66-78 | A built model needs an existing fact table, a mapping under `model` and babbage's confirmation. Its specification is the stored mapping bound to the fact table. |
| `Datasets.NoModelExactly` | spendb/model/dataset.py:66-76 | The getter yields no model if and only if the fact table is missing, `data['model']` is not a mapping, or babbage reports the model as not existing. |
| `Datasets.PrepareStable` | spendb/model/dataset.py:67-78 | Repeating the getter's write changes nothing and builds the same model, so a retry after a failure or a reload reaches the same answer. |
| `Datasets.Dataset.GetModel` | spendb/model/dataset.py:65-78 | A memoised model is returned as is, and nothing is re-checked or written. Otherwise the result is `Materialize` of the document and the document is `Prepare`d. Only a built model is memoised. The memoised model always equals the stored `model` mapping. |
| `Datasets.Dataset.SetModel` | spendb/model/dataset.py:80-86 | Stores the specification and leaves the memo holding what the getter then builds. Cardinalities are computed once if a model results and never otherwise. `updatedAt` rises by one whether or not a model results (collaborator exceptions are not modelled). |
| `Datasets.AssignTwiceSameDocument` | spendb/model/dataset.py:80-86 | Assigning the same specification twice leaves the same document as assigning it once. |
| `Datasets.Dataset.ComputeCardinalities` | spendb/model/dataset.py:85 | The computation for the cube is recorded once. |
| `Datasets.Dataset.GetCube` | spendb/model/dataset.py:88-93 | Returns a cube exactly when the getter yields a model. The cube carries the dataset's name, that model and the fact table. |
| `Datasets.Dataset.SetFields` | spendb/model/dataset.py:95-101 | Stores the field list under `fields` and changes no other entry. The getter then returns it. |
| `Datasets.Dataset.Touch` | spendb/model/dataset.py:103-107 | The timestamp moves forward by one. |
| `Datasets.Dataset.ToDict` | spendb/model/dataset.py:112-126 | The current attributes and timestamps, plus `has_model`, which is true exactly when the getter yields a model. |
| `Datasets.SummaryRoundTrip` | spendb/model/dataset.py:112-126 | The result of `to_dict` is a well-typed `dataset` section. Feeding it back to `update` or to the constructor reproduces the name and every attribute. |
| `Datasets.Dataset.ToFullDict` | spendb/model/dataset.py:128-131 | The document as the getter leaves it, with `dataset` set to `to_dict()`. The memo holds what the getter returned, since `to_dict` runs the getter. |
| `Datasets.FullDictSplitsBack` | spendb/model/dataset.py:128-131 | Every key of the document is kept and only `dataset` is added. Removing `dataset` gives back the document. |
| `Datasets.Filter` | spendb/model/dataset.py:139-144 | Each row passing the non-admin filter appears as often as in the registry, and no other row appears. |
| `Datasets.SortByTitle` | spendb/model/dataset.py:146-147 | The result is ascending by label and is a permutation of the input. |
| `Datasets.AllByAccount` | spendb/model/dataset.py:133-148 | Each visible dataset appears as often as in the registry and no other. With `order` the result is sorted by label. |
| `Datasets.ListingNeverAdds` | spendb/model/dataset.py:133-148 | The listing is a sub-multiset of the registry. |
| `Datasets.AdminSeesAll` | spendb/model/dataset.py:137-140 | An admin's listing is a permutation of the whole registry. |
| `Datasets.MemberSeesPublicAndManaged` | spendb/model/dataset.py:137-144 | An authenticated non-admin sees exactly the public datasets and the ones they manage. |
| `Datasets.AnonymousSeesPublic` | spendb/model/dataset.py:137-144 | A missing or unauthenticated account sees exactly the public datasets. |
| `Datasets.MakePrivateThenList` | spendb/model/dataset.py:50-53 | After `update` sets `private` to true, the dataset is missing from the anonymous listing and present in the listing of an account that manages it. |
| `Datasets.PrivateDatasetVisibility` | spendb/model/dataset.py:133-148 | A private dataset is missing from an anonymous listing and present in its manager's listing. |
| `Datasets.ByName` | spendb/model/dataset.py:150-152 | Returns None exactly when no dataset has the name. Otherwise it returns a dataset with that name, and no earlier dataset has it. |
| `Datasets.ByNameFindsTheOne` | spendb/model/dataset.py:150-152 | Under the unique constraint on `name`, a lookup returns the one dataset with that name. |
| `Datasets.LookupAfterCreate` | spendb/model/dataset.py:150-152 | A dataset registered under a fresh name is what a lookup of that name returns. |
| `LabelOrder.TextLeTotal` | spendb/model/dataset.py:147 | Any two labels are comparable. |
| `LabelOrder.TextLeTransitive` | spendb/model/dataset.py:147 | The label order is transitive. |
| `LabelOrder.TextLeAntisymmetric` | spendb/model/dataset.py:147 | Two texts that are each at most the other are equal. |
| `LabelOrder.LabelLeTotal` | spendb/model/dataset.py:147 | Comparability extends to NULL labels, which sort last. |
| `LabelOrder.LabelLeTransitive` | spendb/model/dataset.py:147 | Transitivity extends to NULL labels. |
| `Json.CodesRoundTrip` | spendb/model/dataset.py:122-123 | Serialising a code list to JSON and reading it back gives the same codes. |

## Left out

- Datasets.Dataset.constructor: requires the manifest to hold a `dataset` mapping. The source raises KeyError or AttributeError there, and the model does not represent the exception.
- Datasets.Dataset.SetModel: babbage and database calls are taken never to fail. In the source, `Model(data)` or `.exists` (dataset.py:74-75) or `compute_cardinalities()` (dataset.py:85) can raise. The exception then leaves the setter with `data['model']` already replaced, and after a cardinality failure with the model already memoised. `touch()` does not run in either case, so `updatedAt` rises only when those calls return. The same holds for `GetModel`, `GetCube`, `ToDict` and `ToFullDict`, which may leave the `fact_table` entry written when babbage raises.
- Datasets.Dataset.Update: requires each value in the section to have its column's type (text or NULL, boolean or NULL, list of strings). The source stores any value and leaves coercion or rejection to the database flush and to the association proxy.
- SQLAlchemy session, commit and flush are not modelled. This covers `db.session.add` in `touch`, the `onupdate` refresh of `updated_at` at flush, the `id` column and change tracking of the JSON column.
- `created_at` is a counter set at construction. Its wall-clock default is not modelled.
- Datasets.Initial: column defaults are applied at construction. In the source they are applied at INSERT, so before a flush `to_dict()` shows `private`, `created_at` and `updated_at` as None, where the model shows false and 0.
- The fact table is reduced to a name and an existence flag. Its name derivation, `create` and `load_iter` are not part of this model. The fact table's source is not part of this model either.
- babbage's `Model` and `Cube` internals are not modelled. The model records that cardinalities were computed, not the counts that babbage writes into the specification.
- `url_for` and the `api_url` key of `to_dict` are left out, because URL routing is a collaborator.
- `__repr__` is left out. It is debugging text only.
- `managers` is defined outside this file. It is modelled as the set of manager account ids.
- String ordering uses character codes. A database collation may order labels differently. Rows with equal labels come out in registry order, where SQL leaves them unspecified.
- `by_name` uses `first()` without an ORDER BY. The model returns the first match in registry order.
- Without `order`, the model keeps registry order, where SQL leaves the order unspecified.
- JSON numbers are integers only. Floating-point values are not modelled.
- Concurrent access is not modelled.
- spendb/tests/helpers.py is not modelled. It holds fixture I/O, CSV ingestion and database setup and teardown.
- env_settings.py is not modelled. It holds environment-variable configuration only.
