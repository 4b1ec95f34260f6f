# Test-record builder for a model-driven form, in Dafny

The script `createTestRecord` runs inside a record form of a Dataverse /
Dynamics 365 application. It walks over the form's attributes and gives each
required attribute of a handled type a placeholder value. An option set gets a
value only when its option list is not empty. Each required lookup that is not
owner-related and has entity types is bound to the first record its query
retrieves; a query that retrieves nothing or fails binds nothing. Attributes of
other types, and attributes that are not required, get nothing. The script then
submits the new record through the Web API and opens it.

This project models the two parts of that script that are real logic:

- **`BindingKey`** (`BindingKey.dfy`) models `formatLookupBindingKey`, which
  turns a lookup attribute's logical name into its OData binding key
  (`new_projectid` → `new_Projectid@odata.bind`). JavaScript's `split`,
  `slice` and `join` are modelled literally as `Split` and `Join`. The helper
  is proved equal to an independent description, `ExpectedBindingKey`, which
  keeps everything up to the last `_` and capitalizes what follows. On top of
  that, the module proves the character-by-character shape of the key, a
  left inverse for lower-case names (so binding keys never collide), and that
  every key contains `@`.
- **`TestRecord`** (`TestRecord.dfy`) models the fill rule and the loops.
  `Plan` is the decision the `forEach` body takes for one attribute, as a
  function of the attribute's metadata and of the values the script draws
  from its environment. `FillRecord` is the `forEach` loop itself: it updates
  the record map step by step and collects the started lookup queries.
  `AwaitLookups` runs the queries' continuations before submission.
  Both methods are proved against the functions `SyncRecord`, `Promises` and
  `SettleAll`.
- **`RecordProperties`** (`RecordProperties.dfy`) proves facts about the
  submitted record as a whole: exactly which keys it holds, that attributes
  that are not required make no difference, and which value ends up under each
  key when the attributes have distinct logical names, whatever the order in
  which the lookup queries settle.

Host inputs become parameters. Attribute metadata arrives as `Attribute`
values. A `Control` with no `getEntityTypes` function has
`entityTypes == None`. Per attribute, a `Draws` value carries:

- the random base-36 suffix;
- the random integer in [0, 1000);
- the random option index;
- the ISO timestamp;
- the outcome of the lookup query: rejected, or the ids of the records it
  retrieved.

## Model

| member | source | states |
|---|---|---|
| `BindingKey.Split` | CreateTestRecordJS.js:5 | splitting on `_` always gives at least one piece, and no piece contains `_` |
| `BindingKey.JoinSplit` | CreateTestRecordJS.js:5-7 | joining the pieces of a split with the separator gives back the split string |
| `BindingKey.SplitSingle` | CreateTestRecordJS.js:5-6 | the split has a single piece (the `parts.length < 2` branch) exactly when the name has no `_` |
| `BindingKey.Capitalize` | CreateTestRecordJS.js:9 | no contract of its own: upper-cases the first character (ASCII only) and copies the rest; its effect on the key is stated by `BindingKeyPointwise` |
| `BindingKey.FormatLookupBindingKey` | CreateTestRecordJS.js:4-11 | no contract of its own (a contract on it slows every proof that mentions it); its meaning is stated by `FormatMatchesExpected` (equal to the last-separator reference) and `BindingKeyPointwise` (character by character) |
| `BindingKey.JoinSnoc` | CreateTestRecordJS.js:7 | joining one more piece appends the separator and that piece, so the re-joined prefix plus `_` plus the last piece is the name |
| `BindingKey.LastIndexOf` | CreateTestRecordJS.js:7-8 | the index returned is -1 exactly when `_` is absent, and otherwise holds the last `_` of the name |
| `BindingKey.FormatMatchesExpected` | CreateTestRecordJS.js:4-11 | the helper equals the reference: the name plus suffix without `_`, else the name up to its last `_` unchanged, the capitalized final segment, and the suffix |
| `BindingKey.BindingKeyEndsWithSuffix` | CreateTestRecordJS.js:6-10 | every binding key ends in `@odata.bind` |
| `BindingKey.BindingKeyWithoutSeparator` | CreateTestRecordJS.js:5-6 | a name without `_` gives exactly the name followed by `@odata.bind` |
| `BindingKey.BindingKeyKeepsPrefix` | CreateTestRecordJS.js:7-10 | a name with `_` keeps its prefix up to and including its last `_` unchanged at the start of the key |
| `BindingKey.BindingKeyTrailingSeparator` | CreateTestRecordJS.js:8-10 | a name ending in `_` (empty final segment) gives the name unchanged plus the suffix |
| `BindingKey.BindingKeyPointwise` | CreateTestRecordJS.js:7-10 | the key is the name plus the suffix, copied character by character, except for the first character of the final segment, which is upper-cased |
| `BindingKey.BindingKeyHasAt` | CreateTestRecordJS.js:10 | every binding key contains `@`, so it differs from any attribute name without one |
| `BindingKey.RecoverAfterFormat` | CreateTestRecordJS.js:4-11 | for names without upper-case letters, lower-casing the key minus its suffix gives the name back |
| `BindingKey.BindingKeyInjective` | CreateTestRecordJS.js:4-11 | two names without upper-case letters with the same binding key are equal |
| `TestRecord.Plan` | CreateTestRecordJS.js:19-100 | only required attributes act. Each plain type writes under its own name: memo the fixed text, boolean `true`, string a `Test_` value, numeric types an integer in [0, 999], datetime the timestamp, optionset one of the options' values (only when the list is not empty). A required lookup is queried, on its first entity type, exactly when it is not `ownerid`, has no `systemuser`/`owner` entity type, and has entity types. An unhandled type does nothing |
| `TestRecord.LookupEntityTypes` | CreateTestRecordJS.js:59-64 | no contract of its own: the first control's entity types when it can report them, otherwise none; `Plan`'s contract uses it for the lookup cases |
| `TestRecord.IsOwnerLookup` | CreateTestRecordJS.js:66-70 | no contract of its own: the name is `ownerid` or the entity types include `systemuser` or `owner`; `Plan`'s contract uses it for the lookup skip |
| `TestRecord.Settle` | CreateTestRecordJS.js:79-86 | no contract of its own: the continuation of one query; `RecordProperties.SettleWrites` and `RecordProperties.SettleKeepsOther` state what it writes and what it leaves alone |
| `TestRecord.FillRecord` | CreateTestRecordJS.js:16-100 | the loop's record and promise list are those of the fill rule applied to the attributes in order |
| `TestRecord.AwaitLookups` | CreateTestRecordJS.js:78-91 | each settled query's continuation writes `/<entity>s(<id>)` under the binding key when it retrieved a record, and nothing otherwise; the result is the record settled by all queries |
| `TestRecord.BuildTestRecord` | CreateTestRecordJS.js:16-105 | the record handed to creation is the record the fill rule and the settled queries define |
| `RecordProperties.SyncKeysFromWrites` | CreateTestRecordJS.js:26-56 | every key the loop writes is the own name of an attribute whose plan is a direct write |
| `RecordProperties.PromisesFromAwaits` | CreateTestRecordJS.js:75-92 | every started query belongs to an attribute whose plan was to query |
| `RecordProperties.SettleAllKeys` | CreateTestRecordJS.js:78-89 | settling adds exactly the binding keys of queries that retrieved a record |
| `RecordProperties.SubmittedKeys` | CreateTestRecordJS.js:19-100 | a key is in the submitted record exactly when some attribute writes it directly under its own name, or some queried lookup retrieved a record and the key is its binding key |
| `RecordProperties.NotRequiredIgnored` | CreateTestRecordJS.js:23 | removing an attribute that is not required leaves the submitted record unchanged |
| `RecordProperties.PlainValueSubmitted` | CreateTestRecordJS.js:26-56 | with distinct logical names, an attribute's direct write survives into the submitted record under its own name |
| `RecordProperties.LookupNeverUnderName` | CreateTestRecordJS.js:58-93 | with distinct logical names, a lookup's plain name is never a key of the submitted record |
| `RecordProperties.SettledLookupValue` | CreateTestRecordJS.js:78-86 | with distinct logical names, a queried lookup that retrieved a record is bound to its reference whatever record settling starts from |
| `RecordProperties.LookupValueSubmitted` | CreateTestRecordJS.js:66-86 | a required, non-owner lookup with entity types whose query retrieved a record is bound in the submitted record to `/<first entity type>s(<first id>)` |
| `RecordProperties.SettleWrites` | CreateTestRecordJS.js:79-86 | a query that retrieved a record writes `/<entity>s(<first id>)` under the binding key of its attribute |
| `RecordProperties.SettleKeepsOther` | CreateTestRecordJS.js:79-89 | a query that failed, retrieved nothing or binds another key leaves every key as it was |
| `RecordProperties.SettleOrderIrrelevant` | CreateTestRecordJS.js:78-91 | when settled queries that bind the same key write the same reference, every reordering of the queries gives the same record |
| `RecordProperties.PromisesAgree` | CreateTestRecordJS.js:75-92 | with distinct logical names, any two started queries that retrieved a record and bind the same key write the same reference (the `Agree` condition of `SettleOrderIrrelevant`) |
| `RecordProperties.SubmittedInAnyOrder` | CreateTestRecordJS.js:78-105 | with distinct logical names, settling the started queries in any order gives the submitted record |

## Left out

- Host calls are not modelled: attribute enumeration, `retrieveMultipleRecords`, `createRecord`, the progress indicator, alert dialogs and `openForm`. Attributes and query outcomes are inputs, and the model ends with the record handed to `createRecord`.
- Promise settlement order: `SettleAll` applies the continuations in the order the queries were started. At runtime each one runs when its query resolves, in any order. With distinct logical names the order does not matter (`SubmittedInAnyOrder`). Names that collide after capitalization (`a_b`, `a_B`) can leave a different reference under the shared key depending on which query resolves last; the model fixes start order there.
- `Math.random`, `toString(36).substring(7)`, `Math.floor` on floating point and `new Date().toISOString()` are not computed. Their results are inputs, with the ranges stated by `ValidDraws`.
- `BindingKey.Capitalize`: upper-casing is ASCII only; JavaScript's full Unicode `toUpperCase` (for example `ß` to `SS`) is not modelled.
- The id of the retrieved related record is an input (`Draws.query.ids`). The model does not choose it as the first key ending in `id` in `Object.keys` order, and does not model the `undefined` case when no key ends in `id`.
- Console logging and the outer `try`/`catch` are not modelled.
- `TestRecord.Value`: option values are taken as integers, and JavaScript values other than strings, numbers and booleans are not modelled.
- The record-value lemmas (`PlainValueSubmitted`, `LookupNeverUnderName`, `SettledLookupValue`, `LookupValueSubmitted`, `PromisesAgree`, `SubmittedInAnyOrder`) assume the platform's logical names: distinct, and made of lower-case letters, digits and `_`. `SubmittedKeys` and `NotRequiredIgnored` hold for any names.
