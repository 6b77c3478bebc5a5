/**
 * `generateTypes`: load the document, derive the resources and type
 * definitions, check the output directory, then write doc.go,
 * groupversion_info.go, types.go and one file per resource, stopping at the
 * first error.
 */
module Emission {
  import opened Wrappers
  import opened Collaborators
  import opened ApiGroup
  import opened Loader

  /** The file written for one resource: named after its Kind in snake case. */
  function ResourceArtifact(res: Resource, env: Env): Artifact
  {
    ResourceGo(env.genVersion, res, env.toSnake(res.kind) + ".go")
  }

  function ResourceArtifacts(resources: seq<Resource>, env: Env): (s: seq<Artifact>)
    ensures |s| == |resources|
    ensures forall i :: 0 <= i < |resources| ==> s[i] == ResourceArtifact(resources[i], env)
  {
    if resources == [] then [] else [ResourceArtifact(resources[0], env)] + ResourceArtifacts(resources[1..], env)
  }

  /**
   * The files generateTypes writes once everything is derived, in the order
   * it writes them: doc.go and groupversion_info.go with the API group,
   * types.go with the type definitions, then the resources in list order.
   */
  function Plan(group: string, resources: seq<Resource>, typeDefs: seq<TypeDef>, env: Env): (plan: seq<Artifact>)
    ensures |plan| == 3 + |resources|
    ensures plan[0] == DocGo(env.genVersion, group)
    ensures plan[1] == GroupVersionInfoGo(env.genVersion, group)
    ensures plan[2] == TypesGo(env.genVersion, typeDefs)
    ensures forall i :: 0 <= i < |resources| ==> plan[3 + i] == ResourceArtifact(resources[i], env)
  {
    [DocGo(env.genVersion, group), GroupVersionInfoGo(env.genVersion, group), TypesGo(env.genVersion, typeDefs)]
      + ResourceArtifacts(resources, env)
  }

  /**
   * Writing `plan` in order and stopping at the first error; it makes at
   * most one write per artifact. `EmitWritesPrefix` states what it does.
   */
  function Emit(plan: seq<Artifact>, write: Artifact -> Option<string>): (run: Run<()>)
    ensures |run.calls| <= |plan|
  {
    if plan == [] then
      Run(Success(()), [])
    else
      match write(plan[0])
      case Some(e) => Run(Failure(Failed(e)), [Write(plan[0])])
      case None =>
        var rest := Emit(plan[1..], write);
        Run(rest.result, [Write(plan[0])] + rest.calls)
  }

  /**
   * The calls Emit makes are the writes of a prefix of the plan; every write
   * but the last of them succeeded; the run succeeds exactly when the whole
   * plan was written without error, and otherwise fails with the error of
   * its last write.
   */
  lemma {:induction false} EmitWritesPrefix(plan: seq<Artifact>, write: Artifact -> Option<string>)
    ensures var run := Emit(plan, write);
            && (forall i :: 0 <= i < |run.calls| ==> run.calls[i] == Write(plan[i]))
            && (forall i :: 0 <= i < |run.calls| - 1 ==> write(plan[i]).None?)
            && (run.result.Success? <==> |run.calls| == |plan| && forall i :: 0 <= i < |plan| ==> write(plan[i]).None?)
            && (run.result.Failure? ==>
                  && |run.calls| > 0
                  && write(plan[|run.calls| - 1]).Some?
                  && run.result.error == Failed(write(plan[|run.calls| - 1]).value))
  {
    if plan != [] && write(plan[0]).None? {
      EmitWritesPrefix(plan[1..], write);
      assert forall i :: 1 <= i < |plan| ==> plan[1..][i - 1] == plan[i];
    }
  }

  /** The calls so far are the writes of the first `n` artifacts of the plan, and all of them succeeded. */
  ghost predicate WroteFirst(plan: seq<Artifact>, write: Artifact -> Option<string>, calls: seq<Call>, n: nat)
  {
    && n <= |plan|
    && |calls| == n
    && forall j :: 0 <= j < n ==> calls[j] == Write(plan[j]) && write(plan[j]).None?
  }

  /** One more successful write extends the written prefix by one artifact. */
  lemma WroteNext(plan: seq<Artifact>, write: Artifact -> Option<string>, calls: seq<Call>, n: nat)
    requires WroteFirst(plan, write, calls, n) && n < |plan| && write(plan[n]).None?
    ensures WroteFirst(plan, write, calls + [Write(plan[n])], n + 1)
  {
  }

  /**
   * When the first `m` artifacts are written and the next one fails, Emit
   * makes exactly those writes and the failing one, and fails with its error.
   */
  lemma {:induction false} EmitStopsAtFirstError(plan: seq<Artifact>, write: Artifact -> Option<string>, m: nat, calls: seq<Call>)
    requires WroteFirst(plan, write, calls, m) && m < |plan| && write(plan[m]).Some?
    ensures Emit(plan, write) == Run(Failure(Failed(write(plan[m]).value)), calls + [Write(plan[m])])
  {
    if m == 0 {
      assert calls + [Write(plan[0])] == [Write(plan[0])];
    } else {
      assert WroteFirst(plan[1..], write, calls[1..], m - 1);
      EmitStopsAtFirstError(plan[1..], write, m - 1, calls[1..]);
      assert calls + [Write(plan[m])] == [Write(plan[0])] + (calls[1..] + [Write(plan[1..][m - 1])]);
    }
  }

  /** When every artifact is written without error, Emit makes exactly those writes and succeeds. */
  lemma {:induction false} EmitWritesAll(plan: seq<Artifact>, write: Artifact -> Option<string>, calls: seq<Call>)
    requires WroteFirst(plan, write, calls, |plan|)
    ensures Emit(plan, write) == Run(Success(()), calls)
  {
    if plan == [] {
      assert Emit(plan, write).result.value == ();
    } else {
      assert WroteFirst(plan[1..], write, calls[1..], |plan| - 1);
      EmitWritesAll(plan[1..], write, calls[1..]);
      assert calls == [Write(plan[0])] + calls[1..];
    }
  }

  /** The document, its resources and its type definitions, once derived. */
  datatype Derived = Derived(api: Swagger, resources: seq<Resource>, typeDefs: seq<TypeDef>)

  /** Lines 98-113 of generateTypes: every step before the first write, each stopping the run on error. */
  function Derive(args: seq<string>, env: Env): Run<Derived>
  {
    var load := LoadSpec(args, env);
    match load.result
    case Failure(e) => Run(Failure(e), load.calls)
    case Success(api) =>
      var afterResources := load.calls + [ResourcesFromApi(api)];
      match env.resourcesFromApi(api)
      case Failure(e) => Run(Failure(Failed(e)), afterResources)
      case Success(resources) =>
        var afterTypeDefs := afterResources + [TypeDefsFromApi(api, resources)];
        match env.typeDefsFromApi(api, resources)
        case Failure(e) => Run(Failure(Failed(e)), afterTypeDefs)
        case Success(typeDefs) =>
          var afterDir := afterTypeDefs + [EnsureOutputDir];
          match env.ensureOutputDir
          case Some(e) => Run(Failure(Failed(e)), afterDir)
          case None => Run(Success(Derived(api, resources, typeDefs)), afterDir)
  }

  /** generateTypes as a function of its arguments and collaborators: derive everything, then emit the plan. */
  function GenerateSpec(args: seq<string>, env: Env): Run<()>
  {
    var derive := Derive(args, env);
    match derive.result
    case Failure(e) => Run(Failure(e), derive.calls)
    case Success(d) =>
      var emit := Emit(Plan(ApiGroupFromSwagger(d.api), d.resources, d.typeDefs, env), env.write);
      Run(emit.result, derive.calls + emit.calls)
  }

  /**
   * Lines 115-132 of generateTypes: write doc.go, groupversion_info.go and
   * types.go, then each resource in list order, returning at the first
   * error. The writes made are exactly those of `Emit` on the plan.
   */
  method WriteArtifacts(group: string, resources: seq<Resource>, typeDefs: seq<TypeDef>, env: Env)
    returns (r: Result<(), Error>, calls: seq<Call>)
    ensures Run(r, calls) == Emit(Plan(group, resources, typeDefs, env), env.write)
  {
    ghost var plan := Plan(group, resources, typeDefs, env);
    calls := [];

    var doc := DocGo(env.genVersion, group);
    var e := env.write(doc);
    if e.Some? {
      EmitStopsAtFirstError(plan, env.write, 0, calls);
      return Failure(Failed(e.value)), calls + [Write(doc)];
    }
    WroteNext(plan, env.write, calls, 0);
    calls := calls + [Write(doc)];
    var groupVersionInfo := GroupVersionInfoGo(env.genVersion, group);
    e := env.write(groupVersionInfo);
    if e.Some? {
      EmitStopsAtFirstError(plan, env.write, 1, calls);
      return Failure(Failed(e.value)), calls + [Write(groupVersionInfo)];
    }
    WroteNext(plan, env.write, calls, 1);
    calls := calls + [Write(groupVersionInfo)];
    var types := TypesGo(env.genVersion, typeDefs);
    e := env.write(types);
    if e.Some? {
      EmitStopsAtFirstError(plan, env.write, 2, calls);
      return Failure(Failed(e.value)), calls + [Write(types)];
    }
    WroteNext(plan, env.write, calls, 2);
    calls := calls + [Write(types)];

    for i := 0 to |resources|
      invariant WroteFirst(plan, env.write, calls, 3 + i)
    {
      var res := ResourceArtifact(resources[i], env);
      assert res == plan[3 + i];
      e := env.write(res);
      if e.Some? {
        EmitStopsAtFirstError(plan, env.write, 3 + i, calls);
        return Failure(Failed(e.value)), calls + [Write(res)];
      }
      WroteNext(plan, env.write, calls, 3 + i);
      calls := calls + [Write(res)];
    }
    EmitWritesAll(plan, env.write, calls);
    r := Success(());
  }

  /**
   * Lines 98-113 of generateTypes, step by step: load the document, extract
   * the resources and the type definitions, and check the output directory,
   * returning at the first error. It agrees with `Derive`.
   */
  method DeriveAll(args: seq<string>, env: Env) returns (r: Result<Derived, Error>, calls: seq<Call>)
    ensures Run(r, calls) == Derive(args, env)
  {
    var api;
    api, calls := GetApi(args, env);
    if api.Failure? {
      return Failure(api.error), calls;
    }
    calls := calls + [ResourcesFromApi(api.value)];
    var resources := env.resourcesFromApi(api.value);
    if resources.Failure? {
      return Failure(Failed(resources.error)), calls;
    }
    calls := calls + [TypeDefsFromApi(api.value, resources.value)];
    var typeDefs := env.typeDefsFromApi(api.value, resources.value);
    if typeDefs.Failure? {
      return Failure(Failed(typeDefs.error)), calls;
    }
    calls := calls + [EnsureOutputDir];
    if env.ensureOutputDir.Some? {
      return Failure(Failed(env.ensureOutputDir.value)), calls;
    }
    r := Success(Derived(api.value, resources.value, typeDefs.value));
  }

  /**
   * generateTypes, step by step as the source does it: it agrees with
   * `GenerateSpec`, and once the first write is made nothing but writes follow.
   */
  method GenerateTypes(args: seq<string>, env: Env) returns (r: Result<(), Error>, calls: seq<Call>)
    ensures Run(r, calls) == GenerateSpec(args, env)
    ensures forall i, j :: 0 <= i < j < |calls| && calls[i].Write? ==> calls[j].Write?
  {
    var derived;
    derived, calls := DeriveAll(args, env);
    DeriveNeverWrites(args, env);
    if derived.Failure? {
      return Failure(derived.error), calls;
    }
    var d := derived.value;
    var written;
    var group := ApiGroupFromSwagger(d.api);
    r, written := WriteArtifacts(group, d.resources, d.typeDefs, env);
    EmitWritesPrefix(Plan(group, d.resources, d.typeDefs, env), env.write);
    calls := calls + written;
  }

  /** The derivation steps never write: their calls are reads, conversions, loads and checks only. */
  lemma DeriveNeverWrites(args: seq<string>, env: Env)
    ensures forall c :: c in Derive(args, env).calls ==> !c.Write?
  {
  }

  /** One step after loading: the call it makes and the error it reports, if any. */
  datatype Step = Step(call: Call, error: Option<string>)

  /**
   * The steps generateTypes runs after loading `api`, in order: resource
   * extraction, type-definition extraction and the output-directory check.
   * Type definitions are extracted from the extracted resources, so that
   * step is only reached when the first one succeeded.
   */
  function DeriveSteps(api: Swagger, env: Env): (steps: seq<Step>)
    ensures |steps| == 3
    ensures steps[0].call == ResourcesFromApi(api)
    ensures steps[0].error.None? <==> env.resourcesFromApi(api).Success?
    ensures env.resourcesFromApi(api).Failure? ==> steps[0].error == Some(env.resourcesFromApi(api).error)
    ensures env.resourcesFromApi(api).Success? ==>
              var resources := env.resourcesFromApi(api).value;
              var typeDefs := env.typeDefsFromApi(api, resources);
              && steps[1].call == TypeDefsFromApi(api, resources)
              && (steps[1].error.None? <==> typeDefs.Success?)
              && (typeDefs.Failure? ==> steps[1].error == Some(typeDefs.error))
    ensures steps[2].call == EnsureOutputDir && steps[2].error == env.ensureOutputDir
  {
    var resources := env.resourcesFromApi(api);
    var found := if resources.Success? then resources.value else [];
    var typeDefs := env.typeDefsFromApi(api, found);
    [ Step(ResourcesFromApi(api), if resources.Failure? then Some(resources.error) else None),
      Step(TypeDefsFromApi(api, found), if typeDefs.Failure? then Some(typeDefs.error) else None),
      Step(EnsureOutputDir, env.ensureOutputDir) ]
  }

  /**
   * Derivation loads the document and stops there if that fails. Otherwise
   * its further calls are those of a non-empty prefix of `DeriveSteps`, in
   * order; every step but the last of them succeeded; it succeeds exactly
   * when all three steps do, with what the extractors returned, and
   * otherwise fails with the error of the last step it ran.
   */
  lemma DeriveStopsAtFirstFailure(args: seq<string>, env: Env)
    ensures var load := LoadSpec(args, env);
            var d := Derive(args, env);
            && (load.result.Failure? ==> d == Run(Failure(load.result.error), load.calls))
            && (load.result.Success? ==>
                  var api := load.result.value;
                  var steps := DeriveSteps(api, env);
                  var n := |d.calls| - |load.calls|;
                  && 0 < n <= |steps|
                  && d.calls[..|load.calls|] == load.calls
                  && (forall k :: 0 <= k < n ==> d.calls[|load.calls| + k] == steps[k].call)
                  && (forall k :: 0 <= k < n - 1 ==> steps[k].error.None?)
                  && (d.result.Failure? ==> steps[n - 1].error.Some? && d.result.error == Failed(steps[n - 1].error.value))
                  && (d.result.Success? <==> n == |steps| && forall k :: 0 <= k < |steps| ==> steps[k].error.None?)
                  && (d.result.Success? ==>
                        var resources := env.resourcesFromApi(api).value;
                        d.result.value == Derived(api, resources, env.typeDefsFromApi(api, resources).value)))
  {
    var load := LoadSpec(args, env);
    if load.result.Success? {
      var api := load.result.value;
      var steps := DeriveSteps(api, env);
      var d := Derive(args, env);
      var resources := env.resourcesFromApi(api);
      if resources.Failure? {
        assert d.calls == load.calls + [steps[0].call];
      } else {
        var typeDefs := env.typeDefsFromApi(api, resources.value);
        assert steps[1].call == TypeDefsFromApi(api, resources.value);
        if typeDefs.Failure? {
          assert d.calls == load.calls + [steps[0].call, steps[1].call];
        } else {
          assert d.calls == load.calls + [steps[0].call, steps[1].call, steps[2].call];
        }
      }
    }
  }

  /**
   * If loading, resource extraction, type-definition extraction or the
   * output-directory check fails, generateTypes returns that error and
   * writes nothing.
   */
  lemma NothingWrittenUnlessDerived(args: seq<string>, env: Env)
    requires Derive(args, env).result.Failure?
    ensures GenerateSpec(args, env) == Run(Failure(Derive(args, env).result.error), Derive(args, env).calls)
    ensures forall c :: c in GenerateSpec(args, env).calls ==> !c.Write?
  {
    DeriveNeverWrites(args, env);
  }

  /**
   * Once everything is derived, the calls after the derivation are the
   * writes of a prefix of the plan, in plan order; all of them but the last
   * succeeded; the run succeeds exactly when the whole plan was written, and
   * otherwise fails with the error of the last write.
   */
  lemma WritesFollowThePlan(args: seq<string>, env: Env)
    requires Derive(args, env).result.Success?
    ensures var d := Derive(args, env);
            var plan := Plan(ApiGroupFromSwagger(d.result.value.api), d.result.value.resources, d.result.value.typeDefs, env);
            var run := GenerateSpec(args, env);
            var n := |run.calls| - |d.calls|;
            && run.calls[..|d.calls|] == d.calls
            && 0 < n <= |plan|
            && (forall i :: 0 <= i < n ==> run.calls[|d.calls| + i] == Write(plan[i]))
            && (forall i :: 0 <= i < n - 1 ==> env.write(plan[i]).None?)
            && (run.result.Success? <==> n == |plan| && forall i :: 0 <= i < |plan| ==> env.write(plan[i]).None?)
            && (run.result.Failure? ==> env.write(plan[n - 1]).Some? && run.result.error == Failed(env.write(plan[n - 1]).value))
  {
    var d := Derive(args, env);
    var v := d.result.value;
    var plan := Plan(ApiGroupFromSwagger(v.api), v.resources, v.typeDefs, env);
    EmitWritesPrefix(plan, env.write);
    var emit := Emit(plan, env.write);
    assert GenerateSpec(args, env) == Run(emit.result, d.calls + emit.calls);
    assert (d.calls + emit.calls)[..|d.calls|] == d.calls;
  }

  /**
   * A successful run wrote doc.go, groupversion_info.go and types.go, then the
   * file of every resource in list order, and nothing else after deriving.
   */
  lemma SuccessWritesWholePlan(args: seq<string>, env: Env)
    requires GenerateSpec(args, env).result.Success?
    ensures Derive(args, env).result.Success?
    ensures var d := Derive(args, env).result.value;
            var run := GenerateSpec(args, env);
            var k := |Derive(args, env).calls|;
            && |run.calls| == k + 3 + |d.resources|
            && run.calls[k].Write? && run.calls[k].artifact.FileName() == "doc.go"
            && run.calls[k + 1].Write? && run.calls[k + 1].artifact.FileName() == "groupversion_info.go"
            && run.calls[k + 2].Write? && run.calls[k + 2].artifact.FileName() == "types.go"
            && (forall i :: 0 <= i < |d.resources| ==>
                  run.calls[k + 3 + i] == Write(ResourceArtifact(d.resources[i], env)))
  {
    var d := Derive(args, env);
    var v := d.result.value;
    var plan := Plan(ApiGroupFromSwagger(v.api), v.resources, v.typeDefs, env);
    EmitWritesPrefix(plan, env.write);
    var emit := Emit(plan, env.write);
    var run := GenerateSpec(args, env);
    assert run == Run(emit.result, d.calls + emit.calls);
    assert emit.result.Success?;
    assert |emit.calls| == |plan|;
    var k := |d.calls|;
    forall i | 0 <= i < |plan|
      ensures run.calls[k + i] == Write(plan[i])
    {
      assert run.calls[k + i] == emit.calls[i];
    }
  }

  /**
   * Emission is not all-or-nothing: when types.go fails to be written,
   * doc.go and groupversion_info.go have already been written.
   */
  lemma TypesFailureLeavesEarlierFiles(args: seq<string>, env: Env)
    requires Derive(args, env).result.Success?
    requires var d := Derive(args, env).result.value;
             var group := ApiGroupFromSwagger(d.api);
             && env.write(DocGo(env.genVersion, group)).None?
             && env.write(GroupVersionInfoGo(env.genVersion, group)).None?
             && env.write(TypesGo(env.genVersion, d.typeDefs)).Some?
    ensures GenerateSpec(args, env).result.Failure?
    ensures var k := |Derive(args, env).calls|;
            var run := GenerateSpec(args, env);
            && |run.calls| == k + 3
            && run.calls[k].Write? && run.calls[k].artifact.FileName() == "doc.go"
            && run.calls[k + 1].Write? && run.calls[k + 1].artifact.FileName() == "groupversion_info.go"
            && run.calls[k + 2].Write? && run.calls[k + 2].artifact.FileName() == "types.go"
  {
    var d := Derive(args, env);
    var v := d.result.value;
    var plan := Plan(ApiGroupFromSwagger(v.api), v.resources, v.typeDefs, env);
    var written := [Write(plan[0]), Write(plan[1])];
    assert WroteFirst(plan, env.write, written, 2);
    EmitStopsAtFirstError(plan, env.write, 2, written);
    var emit := Emit(plan, env.write);
    assert GenerateSpec(args, env) == Run(emit.result, d.calls + emit.calls);
  }
}
