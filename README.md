# ack-generate `types`: input dispatch, API group and emission order

This project models the decision core of the `types` subcommand of
`ack-generate`, the code generator of the AWS Controllers for Kubernetes.
The subcommand reads an OpenAPI document, derives the service's resources
and type definitions, and writes the Go files of the service's API package.
The model covers the three parts of `cmd/ack-generate/command/types.go` that
decide things themselves:

- **`getAPI`** (`Loader.GetApi`). The number of positional arguments picks
  standard input, the file at the cleaned path, or an error. The file
  extension goes through a switch meant to pick a content type. As written
  it never matches, so the type stays unknown (see Findings). Documents
  shorter than two bytes are refused. The first byte and the content type
  decide whether a YAML-to-JSON conversion is tried. The original bytes are
  used when the conversion fails.
- **`apiGroupFromSwagger`** (`ApiGroup.ApiGroupFromSwagger`). The
  `x-aws-api-alias` info extension, or `unknown` when it is absent, followed
  by `.services.k8s.aws`, with every double quote removed.
- **`generateTypes`** (`Emission.GenerateTypes`, `Emission.WriteArtifacts`).
  Load, extract resources, extract type definitions and check the output
  directory, in that order. Then write `doc.go`, `groupversion_info.go`,
  `types.go` and one file per resource, in list order. Every step returns at
  its first error.

The library calls, and the parts of `types.go` that the model does not
write out, are fields of `Collaborators.Env`. These are the stdin read
outcome, the file system, `filepath.Clean`, the YAML converter, the OpenAPI
loader, the two extractors, the output-directory check (`ensureOutputDir`,
types.go:67-93), `strcase.ToSnake`, the template writers (types.go:145-238)
and the `--version` flag. So every property holds whatever those
collaborators do. Every call with an effect or a possible failure is
recorded, in order, as a `Collaborators.Call`. The pure `filepath.Clean` and
`strcase.ToSnake` are not recorded. That call trace is how the model states
facts like "nothing is read", "the loader is never called" and "no file is
written before derivation is done".

Each imperative method is proved equal to a specification function. For
`Loader.GetApi` it is `Loader.LoadSpec`, which is `Loader.Acquire` (the read,
lines 245-265) followed by `Loader.ParseDocument` (lines 267-286). For
`Emission.DeriveAll` it is `Emission.Derive`, for `Emission.WriteArtifacts`
`Emission.Emit` on the plan, and for `Emission.GenerateTypes`
`Emission.GenerateSpec`. `GenerateTypes` runs `DeriveAll` (lines 98-113) and
then `WriteArtifacts` (lines 115-132). The lemmas state the source's
promises about those functions.

Go strings are modelled as `string` with one character per byte. Byte slices
are `seq<GoLib.byte>`. `filepath.Ext` and `json.RawMessage.MarshalJSON` are
written out exactly (`GoLib`). The content-type switch depends on what `Ext`
returns (types.go:253-259). The API group depends on what `MarshalJson`
returns (types.go:139-141).

Three behaviours of the code differ from what a reader might expect, and the
model follows the code:

- A reader might expect the content sniff to skip leading whitespace. The
  code looks at `b[0]` (`types.go:274`), so a JSON document that starts with
  a blank line is sent through the YAML converter.
- A reader might expect a `.json`, `.yaml` or `.yml` extension to set the
  content type. The code never sets it (see Findings).
- A reader might expect emission to be all-or-nothing. The code writes the
  files one at a time, so a failing `types.go` leaves `doc.go` and
  `groupversion_info.go` behind (`Emission.TypesFailureLeavesEarlierFiles`).

## Model

| member | source | states |
|---|---|---|
| `GoLib.BytesToString` | cmd/ack-generate/command/types.go:268 | Go's `string(b)`, also used by `%s` at line 141: the string has as many characters as `b` has bytes, and character i is byte i |
| `GoLib.Ext` | cmd/ack-generate/command/types.go:253 | the extension `filepath.Ext` returns is "" or starts with '.'; `ExtIsFinalDottedSuffix` states the rest |
| `GoLib.ExtIsFinalDottedSuffix` | cmd/ack-generate/command/types.go:253 | the extension of a path is a suffix of it starting with the last '.' of its final element; it holds no separator and no further dot; it is "" only when every dot of the path is followed by a separator |
| `GoLib.ExtOfDottedSuffix` | cmd/ack-generate/command/types.go:253 | a path ending in '.' followed by dot-free, separator-free text has exactly that ending as its extension |
| `GoLib.MarshalJson` | cmd/ack-generate/command/types.go:139 | a non-nil raw message marshals to its own bytes, and a nil one to `null` |
| `Loader.ContentTypeOfExt` | cmd/ack-generate/command/types.go:254-259 | the type is JSON exactly for the extension "json", YAML exactly for "yaml" or "yml", and unknown otherwise |
| `Loader.AttemptsConversion` | cmd/ack-generate/command/types.go:274 | definition; its properties are proved in `Loader.ConversionAndLoaderInput` and `Loader.ConversionDependsOnFirstByteOnly` |
| `Loader.Acquire` | cmd/ack-generate/command/types.go:245-265 | definition; its properties are proved in `Loader.TooManyArgumentsReadNothing`, `Loader.InputSourceIsExclusive` and `Loader.ContentTypeAlwaysUnknown` |
| `Loader.LoaderInput` | cmd/ack-generate/command/types.go:271-279 | definition; its properties are proved in `Loader.ConversionAndLoaderInput` |
| `Loader.ParseDocument` | cmd/ack-generate/command/types.go:267-286 | definition; its properties are proved in `Loader.ShortDocumentNeverLoaded`, `Loader.ConversionAndLoaderInput` and `Loader.FailsExactlyWhen` |
| `Loader.LoadSpec` | cmd/ack-generate/command/types.go:242-287 | definition; its properties are proved in `Loader.GetApi` and the `Loader` lemmas below |
| `Loader.GetApi` | cmd/ack-generate/command/types.go:242-287 | the imperative getAPI equals `LoadSpec`; no argument reads stdin first, one argument reads the cleaned path first, two or more fail with no call at all |
| `Loader.TooManyArgumentsReadNothing` | cmd/ack-generate/command/types.go:263-264 | two or more arguments give the "expected descriptor" error, and no read, conversion or load is made |
| `Loader.InputSourceIsExclusive` | cmd/ack-generate/command/types.go:246-262 | with no argument the outcome does not depend on the file system; with one argument it does not depend on stdin |
| `Loader.ExtensionNeverSelectsType` | cmd/ack-generate/command/types.go:252-259 | for every path, the extension `filepath.Ext` returns gives the unknown type |
| `Loader.ContentTypeAlwaysUnknown` | cmd/ack-generate/command/types.go:245-259 | every document getAPI reads, from stdin or from a file, is typed unknown |
| `Loader.ShortDocumentNeverLoaded` | cmd/ack-generate/command/types.go:267-269 | a document under two bytes fails with the too-short error carrying its text; neither the converter nor the loader is called |
| `Loader.ConversionAndLoaderInput` | cmd/ack-generate/command/types.go:271-282 | the converter is called exactly when YAML-typed, or when unknown-typed and the first byte is neither '{' nor '['; it is called on the document itself; the loader is called last and only once; it gets the conversion output if that worked, otherwise the original bytes |
| `Loader.ConversionDependsOnFirstByteOnly` | cmd/ack-generate/command/types.go:274 | as written, the conversion is tried exactly when the first byte is neither '{' nor '[', whatever the argument |
| `Loader.FailsExactlyWhen` | cmd/ack-generate/command/types.go:246-286 | getAPI fails exactly when the read fails or the arity is wrong, the document is too short, or the loader fails on its input; otherwise it returns the loader's result; an unreadable stdin gives the "expected descriptor" error, and a failed file read or a failed load returns that error unchanged |
| `Loader.ContentTypeOfExtIntended` | cmd/ack-generate/command/types.go:254-259 | the corrected switch: JSON exactly for ".json", YAML exactly for ".yaml" or ".yml" |
| `Loader.IntendedTypeFollowsExtension` | cmd/ack-generate/command/types.go:252-259 | with the corrected switch, any path ending in .json, .yaml or .yml gets the content type of its extension |
| `Loader.YamlFileStartingWithBraceIsNotConverted` | cmd/ack-generate/command/types.go:252-280 | as written, a .yaml file whose first byte is '{' reaches the loader unconverted; the corrected switch would convert it |
| `ApiGroup.StripQuotes` | cmd/ack-generate/command/types.go:142 | the result holds no double quote, and a string without quotes is unchanged |
| `ApiGroup.StripQuotesKeepsOthers` | cmd/ack-generate/command/types.go:142 | removing quotes keeps every other character as often as it occurs |
| `ApiGroup.StripQuotesConcat` | cmd/ack-generate/command/types.go:141-142 | removing quotes from a concatenation removes them from each part |
| `ApiGroup.StripQuotesAppendUnquoted` | cmd/ack-generate/command/types.go:141-142 | quote-free text appended after the alias, such as the group suffix, passes through quote removal unchanged |
| `ApiGroup.DefaultGroupSpelling` | cmd/ack-generate/command/types.go:137-141 | the default alias "unknown" holds no quote, and with the suffix it spells "unknown.services.k8s.aws" |
| `ApiGroup.AliasText` | cmd/ack-generate/command/types.go:136-141 | definition; its properties are proved in `ApiGroup.ApiGroupFromSwagger` and `ApiGroup.QuotedAliasIsUnquoted` |
| `ApiGroup.ApiGroupFromSwagger` | cmd/ack-generate/command/types.go:135-143 | the group holds no double quote; it ends in ".services.k8s.aws"; it is the unquoted alias text followed by that suffix; without the alias extension it is "unknown.services.k8s.aws" |
| `ApiGroup.QuotedAliasIsUnquoted` | cmd/ack-generate/command/types.go:136-142 | an alias stored as the JSON string `"name"` gives the group `name.services.k8s.aws` |
| `Collaborators.Artifact.FileName` | cmd/ack-generate/command/types.go:159-236 | definition; the fixed names doc.go, groupversion_info.go and types.go (lines 164, 188, 211), and for a resource the snake-case name it carries (line 229); the write order is stated through it in `Emission.SuccessWritesWholePlan` and `Emission.TypesFailureLeavesEarlierFiles` |
| `Emission.ResourceArtifact` | cmd/ack-generate/command/types.go:216-237 | definition; its properties are proved in `Emission.ResourceArtifacts`, `Emission.Plan` and `Emission.SuccessWritesWholePlan` |
| `Emission.ResourceArtifacts` | cmd/ack-generate/command/types.go:127-131 | one artifact per resource, in list order: artifact i is the file of resource i, named after its Kind in snake case |
| `Emission.Plan` | cmd/ack-generate/command/types.go:115-131 | the files to write are doc.go and groupversion_info.go with the API group, then types.go with the type definitions, then one per resource in list order |
| `Emission.Emit` | cmd/ack-generate/command/types.go:115-132 | writing a plan makes at most one write per artifact; what it writes and returns is proved in `Emission.EmitWritesPrefix` |
| `Emission.EmitWritesPrefix` | cmd/ack-generate/command/types.go:115-132 | writing a plan makes the writes of a prefix of it, in order; all writes but the last succeeded; the run succeeds exactly when the whole plan was written; otherwise it fails with the last write's error |
| `Emission.EmitStopsAtFirstError` | cmd/ack-generate/command/types.go:115-131 | if the first m writes succeed and write m fails, emission makes exactly those m + 1 writes and returns that error |
| `Emission.EmitWritesAll` | cmd/ack-generate/command/types.go:115-132 | if every write succeeds, emission writes the whole plan and succeeds |
| `Emission.WriteArtifacts` | cmd/ack-generate/command/types.go:115-132 | the imperative write sequence, with its loop over the resources, equals `Emit` on the plan |
| `Emission.Derive` | cmd/ack-generate/command/types.go:98-113 | definition; its properties are proved in `Emission.DeriveAll`, `Emission.DeriveStopsAtFirstFailure` and `Emission.DeriveNeverWrites` |
| `Emission.DeriveSteps` | cmd/ack-generate/command/types.go:102-113 | the three steps after loading, in source order: resource extraction on the document, type-definition extraction on the document and the extracted resources, and the output-directory check; each step reports an error exactly when its collaborator fails, and that error is the collaborator's |
| `Emission.DeriveStopsAtFirstFailure` | cmd/ack-generate/command/types.go:98-113 | a failed load stops derivation with its error; otherwise the further calls are a non-empty prefix of the three steps, in order; every step but the last succeeded; derivation succeeds exactly when all three do, with what the extractors returned, and otherwise fails with the last step's error |
| `Emission.DeriveAll` | cmd/ack-generate/command/types.go:98-113 | the imperative derivation, returning at each error, equals `Derive` |
| `Emission.GenerateSpec` | cmd/ack-generate/command/types.go:97-133 | definition; its properties are proved in `Emission.GenerateTypes` and the `Emission` lemmas below |
| `Emission.GenerateTypes` | cmd/ack-generate/command/types.go:97-133 | the imperative generateTypes equals `GenerateSpec`; once a write is made, every later call is a write |
| `Emission.DeriveNeverWrites` | cmd/ack-generate/command/types.go:98-113 | none of the steps before emission writes a file |
| `Emission.NothingWrittenUnlessDerived` | cmd/ack-generate/command/types.go:98-113 | if load, resource extraction, type-definition extraction or the output-directory check fails, that error is returned and nothing is written |
| `Emission.WritesFollowThePlan` | cmd/ack-generate/command/types.go:97-133 | after a successful derivation, the derivation calls come first; they are followed by the writes of a non-empty prefix of the plan, in order; the run stops at the first failing write |
| `Emission.SuccessWritesWholePlan` | cmd/ack-generate/command/types.go:115-132 | a successful run wrote doc.go, groupversion_info.go and types.go, then every resource's file in list order |
| `Emission.TypesFailureLeavesEarlierFiles` | cmd/ack-generate/command/types.go:115-125 | when types.go fails, the run fails after doc.go and groupversion_info.go were written |

## Left out

- `ensureOutputDir` (stat, mkdir, the writability probe) is file-system I/O. Only its outcome is modelled, as `Env.ensureOutputDir`.
- The bodies of `writeDocGo`, `writeGroupVersionInfoGo`, `writeTypesGo` and `writeResourceGo` are left out: template loading and execution, the banner printed on stdout, `strings.TrimSpace` and `ioutil.WriteFile`. Each is one fallible step, `Env.write`, applied to the artifact's template variables.
- `yaml.YAMLToJSON`, `LoadSwaggerFromData`, `filepath.Clean` and `strcase.ToSnake` are foreign library calls. They are fields of `Env`, so their results are arbitrary.
- `resource.ResourcesFromAPI` and `resource.TypeDefsFromAPI` are fields of `Env`. The packages `pkg/resource` and `pkg/template` are not part of this model, so schema resolution, cycle breaking, deduplication and ordering of type definitions are not modelled.
- The Cobra command, `init` and the flag defaults are CLI wiring. The `--version` flag is `Env.genVersion`. The `--output` flag only affects the output-directory check and where writes go, and both are collaborators.
- The type assertion `apiAlias.(json.RawMessage)` panics when the extension value is not a raw message. Extension values are typed `RawMessage` here, so that panic is not modelled.
- The exact wording of the interpolated error messages is not modelled. `NoDescriptor` stands for the message shared by `types.go:249` and `types.go:264`. `DocumentTooShort` carries the document text that `types.go:268` interpolates.
- `GoLib.Ext` models `filepath.Ext` with the Unix separator '/' only.
- `Emission.GenerateTypes` computes the API group once and hands it to `Emission.WriteArtifacts`. The source computes it in `writeDocGo` and again in `writeGroupVersionInfoGo`. The function is pure, so the value is the same.
- `Env.write` gives a write's outcome as a function of the artifact alone. So the model cannot express a write that fails after an identical write succeeded. Nor can it express that two Kinds with the same `strcase.ToSnake` name (types.go:229) make the second file overwrite the first. No lemma relies on writes being independent of earlier ones.

## Findings

| source | as written | input that shows it | evidently intended | confidence | as-written member | corrected member |
|---|---|---|---|---|---|---|
| cmd/ack-generate/command/types.go:253-259 | the result of `filepath.Ext`, which includes the leading dot, is compared with "json", "yaml" and "yml", so the JSON and YAML cases can never match | the argument `api.yaml`: `filepath.Ext` gives ".yaml", so the type stays unknown. If that file starts with '{', it reaches the loader without YAML conversion | ".json" selects JSON and ".yaml" or ".yml" selects YAML | high; not executed | `Loader.ExtensionNeverSelectsType` (with `Loader.YamlFileStartingWithBraceIsNotConverted`) | `Loader.ContentTypeOfExtIntended` (with `Loader.IntendedTypeFollowsExtension`) |

`Loader.GetApi` and `Loader.LoadSpec` keep the switch as written, because they
model the command as it behaves. The corrected switch is proved on its own.
`Loader.YamlFileStartingWithBraceIsNotConverted` uses both switches to show the
difference on the same input.
