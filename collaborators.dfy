/**
 * The values the `types` command handles and the collaborators it calls.
 * The library calls, and the parts of cmd/ack-generate/command/types.go not written out
 * here (the output-directory check and the template writers), are fields
 * of `Env`, so every lemma holds whatever they do. Each call with an effect
 * or a possible failure is recorded as a `Call`, in order; the pure
 * `filepath.Clean` and `strcase.ToSnake` are not recorded.
 */
module Collaborators {
  import opened Wrappers
  import opened GoLib

  /**
   * The loaded OpenAPI document. The command itself reads only the vendor
   * extensions of its `info` object; the rest of the document is passed on
   * untouched to the extractors and is kept here as opaque bytes.
   */
  datatype Swagger = Swagger(infoExtensions: map<string, RawMessage>, document: seq<byte>)

  /** A resource found by the extractor; the command uses only its Kind. */
  datatype Resource = Resource(kind: string, definition: seq<byte>)

  /** A type definition found by the extractor; the command passes it on whole. */
  datatype TypeDef = TypeDef(name: string, definition: seq<byte>)

  /**
   * One generated Go file, as the template variables it is rendered from:
   * the API version flag and the API group, the type definitions, or one
   * resource with the file name derived from its Kind.
   */
  datatype Artifact =
    | DocGo(apiVersion: string, apiGroup: string)
    | GroupVersionInfoGo(apiVersion: string, apiGroup: string)
    | TypesGo(apiVersion: string, typeDefs: seq<TypeDef>)
    | ResourceGo(apiVersion: string, resource: Resource, fileName: string)
  {
    /** The name the file is written under, or printed under on stdout. */
    function FileName(): string
    {
      match this
      case DocGo(_, _) => "doc.go"
      case GroupVersionInfoGo(_, _) => "groupversion_info.go"
      case TypesGo(_, _) => "types.go"
      case ResourceGo(_, _, name) => name
    }
  }

  /** A call on a collaborator, with what it was given. */
  datatype Call =
    | ReadStdin
    | ReadFile(path: string)
    | YamlToJson(input: seq<byte>)
    | LoadSwagger(input: seq<byte>)
    | ResourcesFromApi(api: Swagger)
    | TypeDefsFromApi(api: Swagger, resources: seq<Resource>)
    | EnsureOutputDir
    | Write(artifact: Artifact)

  /**
   * The errors the command returns. Both the unreadable standard input and a
   * wrong number of arguments give the same message in the source, so they
   * are one error here; errors of collaborators are returned unchanged.
   */
  datatype Error =
    | NoDescriptor
    | DocumentTooShort(got: string)
    | Failed(cause: string)

  /**
   * What the model does not write out: the outcome of reading standard input,
   * the file system, `filepath.Clean`, the YAML converter, the OpenAPI loader,
   * the two extractors, the output-directory check, `strcase.ToSnake`, the
   * template writers (render, then write or print: one fallible step per
   * artifact) and the `--version` flag.
   */
  datatype Env = Env(
    stdin: Result<seq<byte>, string>,
    readFile: string -> Result<seq<byte>, string>,
    clean: string -> string,
    yamlToJson: seq<byte> -> Option<seq<byte>>,
    loadSwagger: seq<byte> -> Result<Swagger, string>,
    resourcesFromApi: Swagger -> Result<seq<Resource>, string>,
    typeDefsFromApi: (Swagger, seq<Resource>) -> Result<seq<TypeDef>, string>,
    ensureOutputDir: Option<string>,
    toSnake: string -> string,
    write: Artifact -> Option<string>,
    genVersion: string)

  /** The observable effect of running part of the command: what it returned and what it called. */
  datatype Run<+T> = Run(result: Result<T, Error>, calls: seq<Call>)
}
