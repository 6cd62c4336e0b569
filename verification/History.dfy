/** What an image contains: the pinned source it started from and every stage run since.

    A stage that fetches from the network is not deterministic, so the content is the record
    of the runs rather than their result. */
module History {
  import opened Prelude
  import opened Framing
  import opened StageKeys

  /** One run of a stage script: the files lying in `/root`, the arguments, and the hosts the
      firewall let it reach (`None` is no firewall at all), at a refresh generation. */
  datatype Exec = Exec(
    name: string, root: map<string, string>, arguments: seq<string>,
    allow: Option<seq<string>>, generation: int, stageGeneration: int)

  /** `intact` is false once a command died half-way or the disk was cut off unflushed. */
  datatype Content = Content(source: string, execs: seq<Exec>, intact: bool)

  function ScriptFile(name: string): string {
    name + ".sh"
  }

  function Arguments(declared: Declared): seq<string> {
    if declared.UserIds? then [Decimal(declared.uid), Decimal(declared.gid)] else []
  }

  /** The files pushed for a stage, in order: the script, then the stage's helper files. */
  function Files(name: string, script: string, declared: Declared): (files: seq<(string, string)>)
    ensures |files| > 0
  {
    [(ScriptFile(name), script)] +
    if declared.Helpers? && |declared.contents| == |HELPER_FILES| then
      seq(|HELPER_FILES|, i requires 0 <= i < |HELPER_FILES| => (HELPER_FILES[i], declared.contents[i]))
    else []
  }

  /** `/root` after pushing the first `n` files into an empty directory. */
  function Pushed(files: seq<(string, string)>, n: nat): map<string, string>
    requires n <= |files|
  {
    if n == 0 then map[] else Pushed(files, n - 1)[files[n - 1].0 := files[n - 1].1]
  }

  // ---- the content a key stands for -------------------------------------------------------

  /** The build allowlist of the nearest stage that has it in its key. */
  function AllowOf(key: Key): seq<string> {
    match key
    case Source(_, _) => []
    case Link(parent, _, _, _, epoch) => if epoch.Some? then epoch.value.allow else AllowOf(parent)
  }

  function SourceOf(key: Key): string {
    match key
    case Source(fingerprint, _) => fingerprint
    case Link(parent, _, _, _, _) => SourceOf(parent)
  }

  function ExecOf(key: Key): Exec
    requires key.Link?
  {
    var files := Files(key.name, key.script, key.declared);
    Exec(key.name, Pushed(files, |files|), Arguments(key.declared), Some(AllowOf(key)),
         if key.epoch.Some? then key.epoch.value.generation else 0,
         if key.epoch.Some? then key.epoch.value.stageGeneration else 0)
  }

  function Denotes(key: Key): Content {
    match key
    case Source(fingerprint, _) => Content(fingerprint, [], true)
    case Link(parent, _, _, _, _) =>
      var before := Denotes(parent);
      Content(before.source, before.execs + [ExecOf(key)], true)
  }

  // ---- the from-scratch build ---------------------------------------------------------------

  /** Stage `i` run the way the inputs ask for it. */
  function RequestedExec(inputs: BuildInputs, i: nat): Exec
    requires i < |inputs.stages|
  {
    var stage := inputs.stages[i];
    var declared := DeclaredInputs(stage.name, inputs);
    var files := Files(stage.name, stage.script, declared);
    Exec(stage.name, Pushed(files, |files|), Arguments(declared), Some(inputs.allow),
         if Floating(stage.name) then inputs.generation else 0,
         if Floating(stage.name) then StageGeneration(stage.name, inputs) else 0)
  }

  /** The pinned source followed by the first `n` stages, each run once, in order. */
  function FromScratch(inputs: BuildInputs, n: nat): (content: Content)
    requires n <= |inputs.stages|
    ensures |content.execs| == n
  {
    Content(inputs.fingerprint, seq(n, i requires 0 <= i < n => RequestedExec(inputs, i)), true)
  }

  lemma {:induction false} AllowOfKeyAt(inputs: BuildInputs, i: nat)
    requires i < |inputs.stages| && Loaded(inputs.stages)
    ensures AllowOf(KeyAt(inputs, i)) == inputs.allow
    ensures SourceOf(KeyAt(inputs, i)) == inputs.fingerprint
  {
    if i == 0 {
      assert inputs.stages[0].name[0] == '1';
    } else {
      AllowOfKeyAt(inputs, i - 1);
    }
  }

  /** A key of the chain stands for exactly the from-scratch build up to its stage. */
  lemma {:induction false} KeyDenotesFromScratch(inputs: BuildInputs, i: nat)
    requires i < |inputs.stages| && Loaded(inputs.stages)
    ensures Denotes(KeyAt(inputs, i)) == FromScratch(inputs, i + 1)
  {
    AllowOfKeyAt(inputs, i);
    if i == 0 {
      assert Denotes(SourceKey(inputs)).execs == [];
      assert FromScratch(inputs, 1).execs == [RequestedExec(inputs, 0)];
    } else {
      KeyDenotesFromScratch(inputs, i - 1);
      assert FromScratch(inputs, i + 1).execs == FromScratch(inputs, i).execs + [RequestedExec(inputs, i)];
    }
  }

  // ---- a run in terms of the inputs -----------------------------------------------------------------

  /** The files of a stage: its script, and beside the finalize script the four helper files. */
  ghost predicate HoldsFilesOf(root: map<string, string>, stage: Stage, helpers: seq<string>) {
    root == if stage.name == "90-finalize" && |helpers| == 4 then
              map["90-finalize.sh" := stage.script, "agent-init.sh" := helpers[0], "instance-init.sh" := helpers[1],
                  "gpt-system-indicator.js" := helpers[2], "gpt-system-prompt.md" := helpers[3]]
            else map[stage.name + ".sh" := stage.script]
  }

  /** One stage of a from-scratch build: its own script with its own arguments and files, once, behind the
      allowlist, at the generations that floating stages have. */
  ghost predicate RunsStage(e: Exec, stage: Stage, uid: int, gid: int, helpers: seq<string>, allow: seq<string>,
                            generation: int, stageGenerations: map<string, int>)
  {
    && e.name == stage.name && HoldsFilesOf(e.root, stage, helpers) && e.allow == Some(allow)
    && e.arguments == (if stage.name == "30-user" then [Decimal(uid), Decimal(gid)] else [])
    && e.generation == (if stage.name == "90-finalize" then 0 else generation)
    && e.stageGeneration == (if stage.name == "90-finalize" || stage.name !in stageGenerations then 0
                             else stageGenerations[stage.name])
  }

  lemma FinalizeFiles(script: string, helpers: seq<string>)
    requires |helpers| == 4
    ensures var files := Files("90-finalize", script, Helpers(helpers));
            HoldsFilesOf(Pushed(files, |files|), Stage("90-finalize", script), helpers)
  {
    var files := Files("90-finalize", script, Helpers(helpers));
    assert "90-finalize" + ".sh" == "90-finalize.sh";
    assert |files| == 5 && files[0] == ("90-finalize.sh", script);
    assert Pushed(files, 0) == map[];
    assert Pushed(files, 1) == map["90-finalize.sh" := script];
    assert Pushed(files, 2) == Pushed(files, 1)["agent-init.sh" := helpers[0]];
    assert Pushed(files, 3) == Pushed(files, 2)["instance-init.sh" := helpers[1]];
    assert Pushed(files, 4) == Pushed(files, 3)["gpt-system-indicator.js" := helpers[2]];
    assert Pushed(files, 5) == Pushed(files, 4)["gpt-system-prompt.md" := helpers[3]];
  }

  lemma ScriptFiles(name: string, script: string, declared: Declared)
    requires !declared.Helpers?
    ensures var files := Files(name, script, declared);
            Pushed(files, |files|) == map[name + ".sh" := script]
  {
    var files := Files(name, script, declared);
    assert files == [(name + ".sh", script)];
    assert Pushed(files, 0) == map[];
  }

  /** Every stage of a from-scratch build is run as the inputs say. */
  lemma FromScratchRuns(inputs: BuildInputs, i: nat)
    requires i < |inputs.stages| && |inputs.helpers| == 4
    ensures RunsStage(FromScratch(inputs, |inputs.stages|).execs[i], inputs.stages[i], inputs.uid, inputs.gid,
                      inputs.helpers, inputs.allow, inputs.generation, inputs.stageGenerations)
  {
    var stage := inputs.stages[i];
    if stage.name == "90-finalize" {
      FinalizeFiles(stage.script, inputs.helpers);
    } else {
      ScriptFiles(stage.name, stage.script, DeclaredInputs(stage.name, inputs));
    }
  }
}
