# Verified model of the etlcmd configuration decoder

etlcmd runs ETL pipelines that are described in an HCL file. The decoder in
`config.go` walks the tree that `hcl.Parse` builds from that file and turns
it into the typed configuration:

- zero or more named `process` blocks, each with an optional input (a type,
  a decoded attribute map and its `field` blocks), a list of transforms and
  an optional output;
- at most one `unidata` block and at most one `mongodb` block.

Along the way it checks the keys of five kinds of node against an
allow-list (`checkHCLKeys`): the root, the `unidata` block, the `mongodb`
block, each `process` block and each `field` block. Input, transform and
output bodies are not key-checked. It also rejects repeated process and
field names.

This project models that decoder in Dafny, in the form the Go code has:

- `Config`, `ProcessInfo` and `InputInfo` are classes. The parse steps fill
  them in place through pointers.
- `parseFields`, `parseTransforms`, `parseProcesses` and `checkHCLKeys` are
  methods with loops. Their invariants are over the `seen` names and the
  `collection` built so far.
- Each method is proved equal to a pure specification function, and the
  properties the decoder promises are proved as lemmas about those functions.

Files:

- `outcomes.dfy` (module `Outcomes`): the outcome of a step. It is a value,
  a returned Go `error` (one constructor per error message the code builds),
  or a panic. It also defines the wrappers `fmt.Errorf("error parsing
  '<keyword>': %s")` and `multierror.Prefix`.
- `hcl.dfy` (module `Hcl`): the parsed tree (`ObjectList`, `ObjectType`,
  literals, lists), the dynamic values `hcl.DecodeObject` produces, and the
  two `ObjectList` methods the decoder calls:
  - `Filter(prefix)` keeps, in order, the items whose first key equals the
    prefix, and strips that key;
  - `Children()` keeps, in order, the items that have a key.

  Their code is not part of this model. These definitions are the assumed
  behaviour, and the lemmas in this module are about those definitions.
- `lower.dfy` (module `Ascii`): `strings.ToLower` on ASCII.
- `keys.dfy` (module `KeyCheck`): `checkHCLKeys`. This is the one place that
  collects several errors: one per offending item of a node, in item order,
  without merging repeats.
- `model.dfy` (module `ConfigModel`): the configuration types of
  config.go:15-60.
  - `FieldInfo`, `TransformInfo`, `OutputInfo`, `UnidataInfo` and
    `MongoDBInfo` are datatypes. The code writes them through a pointer only
    while building them: `mapstructure.WeakDecode(m, &field)` fills a field,
    and `parseUnidata` stores `&u` just before `WeakDecode(m, &u)`. Nothing
    reads them in between, so values are faithful.
  - `Config`, `ProcessInfo` and `InputInfo` are classes. Each has a ghost
    `View()` that gives its contents as a value.
  - A `Library` record holds the library calls whose code is not part of
    this model: `hcl.DecodeObject` and the three `mapstructure.WeakDecode`
    targets. The caller of the parser supplies them.
- `spec.dfy` (module `ConfigSpec`): one pure function per parse step, branch
  for branch. `Named` is the loop that `parseProcesses` and `parseFields`
  share: the label is `item.Keys[0]`, a repeated label is rejected, and the
  block results are collected in order.
- `parse.dfy` (module `ConfigParse`): the parse functions as methods on the
  classes, each proved against its `ConfigSpec` function.
- `properties.dfy` (module `ConfigProperties`): the decoder's promises as
  lemmas.

How the code behaves, as modelled:

- **Fail-fast.** The first duplicate name, bad key set, wrong body shape or
  sub-parser failure ends the walk, and `Parse` returns nil with that
  error. There is no partial result and no error list across blocks.
- **Order of failures.** Errors are not collected across blocks: the first
  failure ends the walk. Processes are parsed first, then unidata, then
  mongodb (`ParseProcessErrorFirst`, `ParseUnidataFailure`,
  `ParseMongoDBFailure`).
- **Optional blocks.** A process without an input or output block is
  accepted with a nil `Input`/`Output` (config.go:221-239;
  `ProcessSpecOkIff`, `ProcessSpecParts`, `InputsSpecNone`).
- **Panics.** These become the outcome `Crash(panic)`, not ordinary errors:
  - `item.Keys[0]` on an item without keys (`IndexOutOfRange`);
  - `val.(string)` on a `type` attribute that is not a string;
  - `val.(bool)` on an `is_multi` attribute that is not a bool.
- **Partial writes.** `parseUnidata` and `parseMongoDB` store the struct
  before the weak decode that can fail. The methods model that write.

## Model

| member | source | states |
|---|---|---|
| `KeyCheck.CheckHCLKeys` | config.go:417-443 | The result is `CheckKeys`: a node that is neither an object list nor an object gives "cannot check HCL keys of type %T" with its type name. An item without keys panics. Otherwise there is no error, or one error listing every item whose first key is not allowed. |
| `KeyCheck.KeySet` | config.go:428-431 | The set built from the allow-list holds exactly the listed keys. |
| `KeyCheck.InvalidKeyErrorsSound` | config.go:434-439 | Every reported error names an item whose first key is not allowed, with that item's line. |
| `KeyCheck.InvalidKeyErrorsComplete` | config.go:434-439 | Every item whose first key is not allowed is reported. |
| `KeyCheck.InvalidKeyErrorsAppend` | config.go:433-440 | The errors of a concatenation are the errors of each part, in item order, with nothing merged. |
| `KeyCheck.InvalidKeyErrorsSingle` | config.go:436-439 | One item contributes one error when its key is not allowed and none otherwise. |
| `KeyCheck.InvalidKeyErrorsSnoc` | config.go:434-440 | Checking one more item appends its error, if any, to those found so far. |
| `KeyCheck.CheckKeysOkIff` | config.go:417-443 | No error exactly when the node is an object (list) whose items all have a key and every first key is allowed. |
| `KeyCheck.CheckKeysErrors` | config.go:419-442 | A failure is "cannot check" exactly for a node that is not an object. Otherwise it is the one error that lists exactly the rejected items. |
| `KeyCheck.CheckKeysNotObject` | config.go:424-425 | A literal or a list is rejected with "cannot check HCL keys of type %T" and its own type name. |
| `Hcl.FilterSound` | config.go:96 | Every item `Filter(keyword)` returns is an item of the list whose first key is the keyword, with that key removed. |
| `Hcl.FilterComplete` | config.go:96 | Every item whose first key is the keyword is among those `Filter(keyword)` returns, with that key removed. |
| `Hcl.FilterEmpty` | config.go:96-117 | A step guarded by `len(o.Items) > 0` after `Filter(keyword)` is skipped exactly when no item's first key is the keyword. |
| `Hcl.ChildrenMembers` | config.go:174 | `Children()` returns exactly the items of the list that carry a key. |
| `Hcl.ChildrenEmpty` | config.go:174-177 | `Children()` is empty, so the step returns early, exactly when no item carries a label. |
| `Hcl.ChildrenOnly` | config.go:376-379 | When exactly one item carries a label, `Children()` is that item alone. |
| `Ascii.ToLower` | config.go:276 | The lower-cased type tag has the same length, with each upper-case ASCII letter replaced by its lower-case letter and every other character kept. |
| `Ascii.ToLowerIdempotent` | config.go:363 | Lower-casing a tag twice gives the same tag as lower-casing it once. |
| `Ascii.ToLowerIgnoresCase` | config.go:394 | Labels that differ only in letter case get the same type tag. At each position the characters are equal, or they are the same ASCII letter in upper and lower case. |
| `Outcomes.Within` | config.go:98-100 | "error parsing '<keyword>'" wraps an error only. A success passes through unchanged, and so does a panic. |
| `Outcomes.PrefixWith` | config.go:133-135 | `multierror.Prefix` wraps an error only. It does not change whether the step succeeded. |
| `ConfigSpec.DecodeAttrs` | config.go:137-140 | `hcl.DecodeObject` into a map never panics. It succeeds exactly when the library decodes, and its error is returned unchanged. |
| `ConfigModel.InputInfo.constructor` | config.go:275 | `var input InputInfo` is the zero value. |
| `ConfigModel.ProcessInfo.constructor` | config.go:210-218 | A new process carries its name and nothing else. |
| `ConfigModel.Config.constructor` | config.go:93 | `var result Config` is the zero value. |
| `ConfigParse.ParseFields` | config.go:291-344 | The returned error is the loop's (`Named` with the field block). On success the fields are stored in order and nothing else changes. On failure the stored fields are untouched. |
| `ConfigParse.ParseInputs` | config.go:249-289 | The error is `InputsSpec`'s. On success with a labelled block, `Input` is a new InputInfo with the specified contents. Otherwise `Input` is unchanged. The other fields of the process are untouched. |
| `ConfigParse.ParseTransforms` | config.go:346-372 | The error is `TransformsSpec`'s. On success the transforms are stored, and on failure they are untouched. The other fields are untouched. |
| `ConfigParse.ParseOutputs` | config.go:374-400 | The error is `OutputsSpec`'s. On success `Output` is set, and on failure it is untouched. The other fields are untouched. |
| `ConfigParse.ParseProcessBlock` | config.go:191-241 | The loop body of `parseProcesses`: the error of `ProcessSpec`, and on success a new ProcessInfo whose contents are the specified process. |
| `ConfigParse.ParseProcesses` | config.go:172-247 | The error is that of the process loop over the labelled blocks. On success with blocks, `Processes` holds one new ProcessInfo per block with the specified contents. Otherwise it is untouched. Unidata and mongodb are untouched. |
| `ConfigParse.SingletonBlockAttrs` | config.go:124-140 | The part that parseUnidata and parseMongoDB share. More than one block gives "only one '<keyword>' block allowed". The step succeeds exactly when there is one block that passes the key check and decodes, and then it yields the decoded map. A key-check error comes back prefixed with "<keyword>:". A key-check panic passes through. A decode error is returned unchanged. |
| `ConfigParse.ParseUnidata` | config.go:122-145 | The error is `UnidataSpec`'s. `Unidata` is set as soon as the block has decoded, even when the weak decode then fails. Processes and mongodb are untouched. |
| `ConfigParse.ParseMongoDB` | config.go:147-170 | The error is `MongoDBSpec`'s. `MongoDB` is set as soon as the block has decoded, even when the weak decode then fails. Processes and unidata are untouched. |
| `ConfigParse.ParseSettings` | config.go:103-117 | Unidata runs before mongodb, and the first error is returned. On success both hold their specified values. Processes are untouched. |
| `ConfigParse.Parse` | config.go:77-120 | The error is `ParseSpec`'s, and a config is returned exactly on success. That config is new, and its unidata, mongodb and processes are the specified ones. |
| `ConfigProperties.NamedOk` | config.go:180-242 | An accepted process or field loop: every item has a label, and there is one result per item, in order, each the block's result for that item. The labels are pairwise distinct and none was seen before. |
| `ConfigProperties.NamedAccepts` | config.go:180-246 | The converse: a process or field loop in which every item has a label, the labels are pairwise distinct and new, and every block succeeds, reaches `return nil`. |
| `ConfigProperties.NamedRejectsRepeat` | config.go:185-189 | Once the items before it are accepted under distinct labels, an item that repeats a label is rejected at that occurrence, as "<kind> '%s' defined more than once". |
| `ConfigProperties.NamedUnlabelledPanics` | config.go:183 | An item without a label makes `item.Keys[0]` panic once the items before it are accepted. |
| `ConfigProperties.FieldSpecOk` | config.go:305-336 | An accepted field has only the keys `type` and `is_multi`. Its name is its label, its type is the string under `type`, and `is_multi` is false unless given as true. |
| `ConfigProperties.FieldSpecAccepts` | config.go:305-336 | The converse: a field with only allowed keys that decodes, has no weak-decode error, has a string `type` and has an absent or bool `is_multi` is accepted. |
| `ConfigProperties.FieldSpecRequiresType` | config.go:325-330 | An allowed, decodable field without `type` is rejected as "you must specify a type for field '%s'". |
| `ConfigProperties.FieldSpecAssertionPanics` | config.go:325-334 | A `type` that is not a string, or an `is_multi` that is not a bool, makes the type assertion panic. |
| `ConfigProperties.FieldSpecIgnoresWeakValue` | config.go:317-336 | The name, type and is_multi set after the weak decode override whatever it decoded. Only its error matters. |
| `ConfigProperties.FieldsOk` | config.go:293-342 | Accepted fields: one FieldInfo per block, in declaration order, each named by its label, with distinct labels. |
| `ConfigProperties.FieldsAccepted` | config.go:293-343 | The converse: labelled field blocks with distinct labels, each accepted, are accepted together. |
| `ConfigProperties.TransformsSpecOk` | config.go:348-369 | The transforms are accepted exactly when every block has a label and decodes. The result keeps declaration order, repeated types included. Each entry has the lower-cased label as type and the decoded map as config. |
| `ConfigProperties.TransformsSpecUnlabelled` | config.go:352-354 | The first transform without a label is rejected as "you may only specify a type for transforms". |
| `ConfigProperties.OutputsSpecNone` | config.go:376-379 | An output list with no labelled block is rejected. |
| `ConfigProperties.OutputsSpecTwo` | config.go:376-379 | An output list with two labelled blocks is rejected. |
| `ConfigProperties.OutputsSpecOk` | config.go:376-397 | An accepted output list has exactly one labelled block. The output is its lower-cased label with its decoded map. |
| `ConfigProperties.OutputsSpecAccepts` | config.go:376-397 | The converse: an output list with exactly one labelled block, which decodes, is accepted. |
| `ConfigProperties.InputsSpecNone` | config.go:251-254 | The input is left nil, with no error, exactly when no input block carries a label. |
| `ConfigProperties.InputsSpecFirstLabelled` | config.go:251-284 | Only the first labelled input block matters. On success the type is its lower-cased label, the config is its decoded map, and the body is an object. Its `field` blocks, if any, passed the field loop, and the input holds exactly that loop's fields (none without field blocks). |
| `ConfigProperties.UnidataSpecTwoBlocks` | config.go:124-126 | Two or more unidata blocks are rejected. |
| `ConfigProperties.MongoDBSpecTwoBlocks` | config.go:149-151 | Two or more mongodb blocks are rejected. |
| `ConfigProperties.UnidataSpecOk` | config.go:128-144 | An accepted unidata block is the only one. It uses only host, username, password and udt_bin, and is the weak decode of its decoded map. |
| `ConfigProperties.MongoDBSpecOk` | config.go:153-169 | An accepted mongodb block is the only one. It uses only server and database, and is the weak decode of its decoded map. |
| `ConfigProperties.NoLabelledBlock` | config.go:221-225 | There is no labelled block under a keyword exactly when every item under it has nothing after the keyword. |
| `ConfigProperties.ProcessSpecKeys` | config.go:191-203 | An accepted process block is an object that uses only input, output and transform. |
| `ConfigProperties.ProcessSpecOkIff` | config.go:191-239 | A process block is accepted exactly when its body is an object with only the process keys and it decodes. The input, transform and output steps must also succeed, each where its blocks are present. A missing block asks for nothing. |
| `ConfigProperties.ProcessSpecParts` | config.go:220-239 | A block that meets those conditions is accepted, even without input or output blocks. Its input is nil exactly when there is no labelled input block. Its output is nil exactly when there is no output block. It has no transforms exactly when there is no transform block. |
| `ConfigProperties.ProcessSpecName` | config.go:218 | An accepted process is named by its label. |
| `ConfigProperties.ProcessesOk` | config.go:179-245 | Accepted processes: one per labelled block, in declaration order, each named by its label and equal to its block's result, with distinct names. |
| `ConfigProperties.ProcessesAccepted` | config.go:179-246 | The converse: labelled process blocks with distinct labels, each accepted, are accepted together. |
| `ConfigProperties.ParseRejectsRootKey` | config.go:83-91 | A root key other than process, unidata and mongodb rejects the file. The error lists that key with its line. |
| `ConfigProperties.ParseProcessErrorFirst` | config.go:95-101 | Processes are parsed first. A process failure is the result, wrapped as "error parsing 'process'", whatever the later blocks hold. A panic passes through. |
| `ConfigProperties.ParseUnidataFailure` | config.go:103-109 | Once the processes are accepted, any failing unidata step is the file's failure, wrapped as "error parsing 'unidata'", whatever the mongodb blocks hold. That covers two blocks, a bad key, and a decode or weak-decode error. A panic passes through. |
| `ConfigProperties.ParseMongoDBFailure` | config.go:111-117 | Once processes and unidata are accepted, any failing mongodb step is the file's failure, wrapped as "error parsing 'mongodb'". A panic passes through. |
| `ConfigProperties.ParseOkProcesses` | config.go:84-101 | In an accepted file, the root uses only the root keys. Every labelled process block became one process, in order, named by its label, with distinct names. |
| `ConfigProperties.ParseOkSettings` | config.go:103-119 | An accepted file has unidata exactly when it has a unidata block. It then has only one, with only the allowed keys, and the stored unidata is what that block parses to. The same holds for mongodb. |
| `ConfigProperties.ParseAccepts` | config.go:77-119 | The converse: a root object list with only root keys, whose process, unidata and mongodb steps all succeed, is accepted with exactly their results. |
| `ConfigProperties.ParseEmpty` | config.go:93-119 | A file with no blocks is accepted as the empty configuration. |

## Left out

- `LoadConfig` (config.go:402-415) and the first part of `Parse` (config.go:62-75) are left out. This covers opening the file, copying the reader into a buffer and `hcl.Parse`. They are I/O and a foreign parser, so the model starts from the parsed root node.
- The code of `hcl.DecodeObject` and `mapstructure.WeakDecode` is not part of this model. They are fields of the `Library` record that the caller supplies, and their coercion rules are not modelled.
- `ObjectList.Filter` and `ObjectList.Children` are defined by their assumed behaviour. `Filter` matches the first key exactly, case-sensitively, and strips one key. `Children` keeps the items that have a key.
- `multierror` message rendering is not modelled. Errors are structured values with one constructor per message shape, and `multierror.Append`'s flattening is left out.
- `strings.ToLower` is modelled on ASCII only, because Unicode case mapping is not modelled.
- Floating-point and heredoc literals are not modelled, and neither are key tokens of non-string type. Key tokens are strings once `Token.Value()` is applied, so the type assertion on them (config.go:183, 261, 297, 355, 386, 435) is not modelled.
- The checks `len(item.Keys) == 0` after `Children()` (config.go:258-260 and 383-385) are left out. `Children()` keeps only items with a key, so these branches cannot be taken.
- `ConfigParse.ParseUnidata` and `ConfigParse.ParseMongoDB` require at least one block. The only caller (config.go:104, 112) calls them only when `Filter` returned items.
- `ConfigParse.ParseSettings` requires a config whose unidata and mongodb are still unset. Its only caller passes the new config.
- Slices of pointers (`[]*FieldInfo`, `[]*TransformInfo`, `*OutputInfo`) are sequences and options of values. Those structs are not changed after they are built.
- `main.go` is not part of this model. It holds the command line, pipeline execution, network access and concurrency.
