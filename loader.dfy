/**
 * `getAPI`: read the OpenAPI document from standard input or from the one
 * path argument, bring it into JSON form and hand it to the OpenAPI loader.
 */
module Loader {
  import opened Wrappers
  import opened GoLib
  import opened Collaborators

  /** The source's `contentType`: `ctUnknown`, `ctJSON` or `ctYAML`. */
  datatype ContentType = Unknown | Json | Yaml

  const OpenBrace: byte := 0x7B
  const OpenBracket: byte := 0x5B

  /** Documents shorter than this are refused before the loader sees them. */
  const MinDocumentLength: nat := 2

  /**
   * The `switch ext` of getAPI. `ext` is what `filepath.Ext` returns; it is
   * compared with "json", "yaml" and "yml", without a leading dot.
   */
  function ContentTypeOfExt(ext: string): (ct: ContentType)
    ensures ct == Json <==> ext == "json"
    ensures ct == Yaml <==> ext == "yaml" || ext == "yml"
  {
    if ext == "json" then Json
    else if ext == "yaml" || ext == "yml" then Yaml
    else Unknown
  }

  /**
   * Whether getAPI runs the YAML-to-JSON conversion: always for YAML, for an
   * unknown type when the first byte (not the first non-blank one) opens
   * neither a JSON object nor a JSON array, never for JSON.
   */
  predicate AttemptsConversion(ct: ContentType, b: seq<byte>)
    requires |b| > 0
  {
    ct == Yaml || (ct == Unknown && b[0] != OpenBrace && b[0] != OpenBracket)
  }

  /** The document as read, with the content type chosen for it. */
  datatype Input = Input(contentType: ContentType, bytes: seq<byte>)

  /** Lines 245-265 of getAPI: pick the input by the number of arguments and read it. */
  function Acquire(args: seq<string>, env: Env): Run<Input>
  {
    if |args| == 0 then
      match env.stdin
      case Failure(_) => Run(Failure(NoDescriptor), [ReadStdin])
      case Success(b) => Run(Success(Input(Unknown, b)), [ReadStdin])
    else if |args| == 1 then
      var fp := env.clean(args[0]);
      match env.readFile(fp)
      case Failure(e) => Run(Failure(Failed(e)), [ReadFile(fp)])
      case Success(b) => Run(Success(Input(ContentTypeOfExt(Ext(fp)), b)), [ReadFile(fp)])
    else
      Run(Failure(NoDescriptor), [])
  }

  /** The bytes the loader receives: the conversion's output if it was tried and worked, else the input. */
  function LoaderInput(ct: ContentType, b: seq<byte>, yamlToJson: seq<byte> -> Option<seq<byte>>): seq<byte>
    requires |b| > 0
  {
    if AttemptsConversion(ct, b) && yamlToJson(b).Some? then yamlToJson(b).value else b
  }

  /**
   * Lines 267-286 of getAPI, once the document is read: refuse a short
   * document, try the conversion when `AttemptsConversion` holds, and load
   * the result. The calls are those made after the read.
   */
  function ParseDocument(input: Input, env: Env): Run<Swagger>
  {
    var b := input.bytes;
    if |b| < MinDocumentLength then
      Run(Failure(DocumentTooShort(BytesToString(b))), [])
    else
      var conversion := if AttemptsConversion(input.contentType, b) then [YamlToJson(b)] else [];
      var jsonb := LoaderInput(input.contentType, b, env.yamlToJson);
      var calls := conversion + [LoadSwagger(jsonb)];
      match env.loadSwagger(jsonb)
      case Failure(e) => Run(Failure(Failed(e)), calls)
      case Success(api) => Run(Success(api), calls)
  }

  /** getAPI as a function of its arguments and its collaborators: read, then parse. */
  function LoadSpec(args: seq<string>, env: Env): Run<Swagger>
  {
    var read := Acquire(args, env);
    match read.result
    case Failure(e) => Run(Failure(e), read.calls)
    case Success(input) =>
      var parsed := ParseDocument(input, env);
      Run(parsed.result, read.calls + parsed.calls)
  }

  /**
   * getAPI, step by step as the source does it: it agrees with `LoadSpec`
   * and reads standard input, the cleaned path or nothing, by the number of
   * arguments.
   */
  method GetApi(args: seq<string>, env: Env) returns (r: Result<Swagger, Error>, calls: seq<Call>)
    ensures Run(r, calls) == LoadSpec(args, env)
    ensures |args| == 0 ==> |calls| > 0 && calls[0] == ReadStdin
    ensures |args| == 1 ==> |calls| > 0 && calls[0] == ReadFile(env.clean(args[0]))
    ensures |args| >= 2 ==> r == Failure(NoDescriptor) && calls == []
  {
    var b: seq<byte> := [];
    var contentType := Unknown;
    calls := [];
    if |args| == 0 {
      calls := calls + [ReadStdin];
      match env.stdin
      case Failure(_) =>
        return Failure(NoDescriptor), calls;
      case Success(data) =>
        b := data;
    } else if |args| == 1 {
      var fp := env.clean(args[0]);
      contentType := ContentTypeOfExt(Ext(fp));
      calls := calls + [ReadFile(fp)];
      match env.readFile(fp)
      case Failure(e) =>
        return Failure(Failed(e)), calls;
      case Success(data) =>
        b := data;
    } else {
      return Failure(NoDescriptor), calls;
    }
    ghost var read := calls;
    assert Acquire(args, env) == Run(Success(Input(contentType, b)), read);
    ghost var parsed := ParseDocument(Input(contentType, b), env);

    if |b| < MinDocumentLength {
      assert calls == read + parsed.calls;
      return Failure(DocumentTooShort(BytesToString(b))), calls;
    }

    var jsonb := b;
    if AttemptsConversion(contentType, b) {
      calls := calls + [YamlToJson(b)];
      match env.yamlToJson(b)
      case Some(converted) =>
        jsonb := converted;
      case None =>
        jsonb := b;
    }
    assert jsonb == LoaderInput(contentType, b, env.yamlToJson);

    calls := calls + [LoadSwagger(jsonb)];
    assert calls == read + parsed.calls;
    match env.loadSwagger(jsonb)
    case Failure(e) =>
      r := Failure(Failed(e));
    case Success(api) =>
      r := Success(api);
  }

  /** What getAPI managed to read, when it read anything. */
  function ReadBytes(args: seq<string>, env: Env): Option<seq<byte>>
  {
    if Acquire(args, env).result.Success? then Some(Acquire(args, env).result.value.bytes) else None
  }

  /** A successful read made one call, on standard input or on the file system. */
  lemma ReadIsOneCall(args: seq<string>, env: Env)
    requires Acquire(args, env).result.Success?
    ensures |Acquire(args, env).calls| == 1
    ensures Acquire(args, env).calls[0].ReadStdin? || Acquire(args, env).calls[0].ReadFile?
  {
  }

  /** The calls made on a document of two bytes or more: the conversion when it is tried, then the load. */
  lemma ParseCalls(input: Input, env: Env)
    requires |input.bytes| >= MinDocumentLength
    ensures ParseDocument(input, env).calls ==
              (if AttemptsConversion(input.contentType, input.bytes) then [YamlToJson(input.bytes)] else [])
              + [LoadSwagger(LoaderInput(input.contentType, input.bytes, env.yamlToJson))]
  {
  }

  /** Two or more arguments fail with NoDescriptor before anything is read or called. */
  lemma TooManyArgumentsReadNothing(args: seq<string>, env: Env)
    requires |args| >= 2
    ensures LoadSpec(args, env) == Run(Failure(NoDescriptor), [])
  {
    assert Acquire(args, env) == Run(Failure(NoDescriptor), []);
  }

  /** The outcome with no argument never depends on the file system, nor with one on standard input. */
  lemma InputSourceIsExclusive(args: seq<string>, env: Env, other: Env)
    requires other == env.(readFile := other.readFile) || other == env.(stdin := other.stdin)
    requires |args| == 0 ==> other.stdin == env.stdin
    requires |args| == 1 ==> other.readFile == env.readFile
    ensures LoadSpec(args, other) == LoadSpec(args, env)
  {
    assert Acquire(args, other) == Acquire(args, env);
    if Acquire(args, env).result.Success? {
      assert ParseDocument(Acquire(args, env).result.value, other) == ParseDocument(Acquire(args, env).result.value, env);
    }
  }

  /**
   * `filepath.Ext` returns "" or a suffix that starts with '.', so no path
   * has the extension "json", "yaml" or "yml" as the switch spells them.
   */
  lemma ExtensionNeverSelectsType(path: string)
    ensures ContentTypeOfExt(Ext(path)) == Unknown
  {
  }

  /** Hence getAPI types every document, read from a file or from standard input, as Unknown. */
  lemma ContentTypeAlwaysUnknown(args: seq<string>, env: Env)
    requires Acquire(args, env).result.Success?
    ensures Acquire(args, env).result.value.contentType == Unknown
  {
    if |args| == 1 {
      ExtensionNeverSelectsType(env.clean(args[0]));
    }
  }

  /** A document shorter than two bytes is an error, and neither the converter nor the loader is called. */
  lemma ShortDocumentNeverLoaded(args: seq<string>, env: Env)
    requires ReadBytes(args, env).Some? && |ReadBytes(args, env).value| < MinDocumentLength
    ensures LoadSpec(args, env).result == Failure(DocumentTooShort(BytesToString(ReadBytes(args, env).value)))
    ensures LoadSpec(args, env).calls == Acquire(args, env).calls
    ensures forall c :: c in LoadSpec(args, env).calls ==> !c.YamlToJson? && !c.LoadSwagger?
  {
    var read := Acquire(args, env);
    ReadIsOneCall(args, env);
    assert ParseDocument(read.result.value, env).calls == [];
    assert LoadSpec(args, env).calls == read.calls + [];
  }

  /**
   * For a document of two bytes or more, the converter is called exactly
   * when `AttemptsConversion` holds, on the document itself, and the
   * loader is called last, on the conversion's output if it worked and on
   * the document otherwise.
   */
  lemma ConversionAndLoaderInput(args: seq<string>, env: Env)
    requires ReadBytes(args, env).Some? && |ReadBytes(args, env).value| >= MinDocumentLength
    ensures var b := ReadBytes(args, env).value;
            var ct := Acquire(args, env).result.value.contentType;
            var calls := LoadSpec(args, env).calls;
            && (YamlToJson(b) in calls <==> AttemptsConversion(ct, b))
            && (forall c :: c in calls && c.YamlToJson? ==> c.input == b)
            && calls[|calls| - 1].LoadSwagger?
            && (forall k :: 0 <= k < |calls| - 1 ==> !calls[k].LoadSwagger?)
            && (!AttemptsConversion(ct, b) || env.yamlToJson(b).None? ==> calls[|calls| - 1].input == b)
            && (AttemptsConversion(ct, b) && env.yamlToJson(b).Some? ==>
                  calls[|calls| - 1].input == env.yamlToJson(b).value)
  {
    var read := Acquire(args, env);
    var input := read.result.value;
    var b := input.bytes;
    ReadIsOneCall(args, env);
    ParseCalls(input, env);
    var conversion := if AttemptsConversion(input.contentType, b) then [YamlToJson(b)] else [];
    var load := LoadSwagger(LoaderInput(input.contentType, b, env.yamlToJson));
    var calls := LoadSpec(args, env).calls;
    assert calls == read.calls + conversion + [load];
    assert YamlToJson(b) in calls <==> YamlToJson(b) in conversion;
  }

  /**
   * As written, the conversion is tried exactly when the first byte is
   * neither '{' nor '[', whatever the argument and its extension.
   */
  lemma ConversionDependsOnFirstByteOnly(args: seq<string>, env: Env)
    requires ReadBytes(args, env).Some? && |ReadBytes(args, env).value| >= MinDocumentLength
    ensures var b := ReadBytes(args, env).value;
            YamlToJson(b) in LoadSpec(args, env).calls <==> b[0] != OpenBrace && b[0] != OpenBracket
  {
    ContentTypeAlwaysUnknown(args, env);
    ConversionAndLoaderInput(args, env);
  }

  /**
   * getAPI fails exactly when reading fails or the arity is wrong, the
   * document is shorter than two bytes, or the loader fails; otherwise it
   * returns what the loader returned for its input. An unreadable standard
   * input gives NoDescriptor; the file system's and the loader's errors are
   * returned unchanged.
   */
  lemma FailsExactlyWhen(args: seq<string>, env: Env)
    ensures var run := LoadSpec(args, env);
            && (run.result.Failure? <==>
                  || ReadBytes(args, env).None?
                  || |ReadBytes(args, env).value| < MinDocumentLength
                  || env.loadSwagger(run.calls[|run.calls| - 1].input).Failure?)
            && (ReadBytes(args, env).None? <==>
                  || |args| >= 2
                  || (|args| == 0 && env.stdin.Failure?)
                  || (|args| == 1 && env.readFile(env.clean(args[0])).Failure?))
            && (run.result.Success? ==>
                  run.result == Success(env.loadSwagger(run.calls[|run.calls| - 1].input).value))
            && (|args| == 0 && env.stdin.Failure? ==> run.result == Failure(NoDescriptor))
            && (|args| == 1 && env.readFile(env.clean(args[0])).Failure? ==>
                  run.result == Failure(Failed(env.readFile(env.clean(args[0])).error)))
            && (ReadBytes(args, env).Some? && |ReadBytes(args, env).value| >= MinDocumentLength ==>
                  var loaded := env.loadSwagger(run.calls[|run.calls| - 1].input);
                  loaded.Failure? ==> run.result == Failure(Failed(loaded.error)))
  {
    var read := Acquire(args, env);
    if read.result.Success? && |read.result.value.bytes| >= MinDocumentLength {
      var input := read.result.value;
      ParseCalls(input, env);
      var jsonb := LoaderInput(input.contentType, input.bytes, env.yamlToJson);
      var calls := LoadSpec(args, env).calls;
      assert calls[|calls| - 1] == LoadSwagger(jsonb);
    }
  }

  /** The type switch as evidently intended: the extensions spelled the way `filepath.Ext` returns them. */
  function ContentTypeOfExtIntended(ext: string): (ct: ContentType)
    ensures ct == Json <==> ext == ".json"
    ensures ct == Yaml <==> ext == ".yaml" || ext == ".yml"
  {
    if ext == ".json" then Json
    else if ext == ".yaml" || ext == ".yml" then Yaml
    else Unknown
  }

  /** With the intended switch, a path ending in .json, .yaml or .yml gets its type from the extension. */
  lemma IntendedTypeFollowsExtension(stem: string)
    ensures ContentTypeOfExtIntended(Ext(stem + ".json")) == Json
    ensures ContentTypeOfExtIntended(Ext(stem + ".yaml")) == Yaml
    ensures ContentTypeOfExtIntended(Ext(stem + ".yml")) == Yaml
  {
    ExtOfDottedSuffix(stem, ".json");
    ExtOfDottedSuffix(stem, ".yaml");
    ExtOfDottedSuffix(stem, ".yml");
  }

  /**
   * What the dead switch costs: a .yaml file whose first byte is '{' is
   * handed to the loader unconverted, where the intended switch would have
   * had it converted from YAML.
   */
  lemma YamlFileStartingWithBraceIsNotConverted(args: seq<string>, env: Env, stem: string)
    requires |args| == 1 && env.clean(args[0]) == stem + ".yaml"
    requires ReadBytes(args, env).Some? && |ReadBytes(args, env).value| >= MinDocumentLength
    requires ReadBytes(args, env).value[0] == OpenBrace
    ensures YamlToJson(ReadBytes(args, env).value) !in LoadSpec(args, env).calls
    ensures AttemptsConversion(ContentTypeOfExtIntended(Ext(env.clean(args[0]))), ReadBytes(args, env).value)
  {
    ConversionDependsOnFirstByteOnly(args, env);
    IntendedTypeFollowsExtension(stem);
  }
}
