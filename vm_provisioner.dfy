/** The provisioning pipeline: five batches of shell commands run in order over
    one remote session, each batch and the whole chain failing fast, plus the
    chef-solo attribute document the fourth batch hands to the remote host.

    The remote session is an oracle: `replies(n)` is what the n-th command of
    the session prints (a sequence of stdout/stderr chunks) and its exit
    status. The template files, the GitHub API and the JSON encoder are inputs
    too. */
module VmProvisioner {
  import opened Wrappers
  import opened Strings
  import opened Values
  import Shell
  import Chef
  import GitHub

  // ---------------------------------------------------------------------
  // Command batches (long literals are written as concatenations of short
  // pieces, which keeps the character-membership proofs below cheap)

  /** `Assets::SOLO_RB`, the chef-solo configuration written by `prep_chef`,
      in two halves. */
  const SoloRbHead: string :=
    "root = File.expand_path(" + "File.dirname(__FILE__))\n" +
    "file_cache_path " + "File.join(root, \"cache\")\n"
  const SoloRbCookbooks: string :=
    "cookbook_path [ \"/tmp/vm-provisioning" + "/travis-cookbooks/ci_environment\" ]\n"
  const SoloRbTail: string :=
    SoloRbCookbooks + "log_location STDOUT\n" + "verbose_logging false\n"
  const SoloRb: string := SoloRbHead + SoloRbTail

  const SetupEnv: seq<string> := [
    "sudo usermod -s " + "/bin/bash travis",
    "sudo apt-get -y update",
    "sudo apt-get -y -qq upgrade",
    "sudo apt-get -y -qq install " + "bash curl build-essential " + "bison openssl vim wget",
    "sudo rm /dev/null",
    "sudo mknod -m 0666 " + "/dev/null c 1 3",
    "sudo apt-get -y install " + "--reinstall language-pack-en",
    "export LANG=\"en_US.UTF-8\""
  ]

  const InstallChef: seq<string> := [
    "mkdir -p /tmp/vm-provisioning",
    "cd /tmp/vm-provisioning",
    "curl -L https://www.opscode.com" + "/chef/install.sh | sudo bash " + "-s -- -v 11.16.2-1"
  ]

  /** The format directive of the tarball command, and the text around it. */
  const BranchDirective: string := "%{branch}"
  const TarballPrefix: string := "curl -L https://api.github.com" + "/repos/travis-ci" + "/travis-cookbooks/tarball/"
  const TarballSuffix: string := " > travis-cookbooks.tar.gz"

  /** Index of the one command of PREP_CHEF that holds the directive. */
  const TarballIndex: nat := 4

  /** The command that writes solo.rb on the remote host. */
  const WriteSoloRb: string := "echo " + Shell.Escape(SoloRb) + " > /tmp/vm-provisioning" + "/assets/solo.rb"

  const MakeCacheDir: string := "mkdir -p /tmp/vm-provisioning" + "/assets/cache"
  const EnterWorkDir: string := "cd /tmp/vm-provisioning"
  const RemoveCookbooks: string := "rm -rf travis-cookbooks"
  const Untar: string := "tar xvf travis-cookbooks.tar.gz"
  const RenameCookbooks: string := "mv travis-ci-travis-cookbooks-*" + " travis-cookbooks"
  const RemoveTarball: string := "rm travis-cookbooks.tar.gz"

  /** `PREP_CHEF`, before formatting. */
  const PrepChef: seq<string> := [
    MakeCacheDir,
    WriteSoloRb,
    EnterWorkDir,
    RemoveCookbooks,
    TarballPrefix + BranchDirective + TarballSuffix,
    Untar,
    RenameCookbooks,
    RemoveTarball
  ]

  const CleanUp: seq<string> := [
    "cd ~",
    "sudo rm -rf /tmp/vm-provisioning",
    "sudo rm -rf /opt/chef",
    "sudo apt-get clean"
  ]

  /** `PREP_CHEF.map { |x| x % { branch: cookbooks_branch } }`; a nil branch
      formats as the empty string. */
  function PrepChefCommands(branch: Option<string>): seq<string> {
    seq(|PrepChef|, i requires 0 <= i < |PrepChef| => ReplaceAll(PrepChef[i], BranchDirective, branch.GetOr("")))
  }

  /** No command of PREP_CHEF but the tarball one holds a `%` at all. */
  lemma PrepChefPlain()
    ensures forall i | 0 <= i < |PrepChef| && i != TarballIndex :: '%' !in PrepChef[i]
  {
    WriteSoloRbPlain();
    WorkDirPlain();
    UnpackPlain();
    TidyPlain();
  }

  lemma WorkDirPlain()
    ensures '%' !in MakeCacheDir && '%' !in EnterWorkDir
  {
  }

  lemma UnpackPlain()
    ensures '%' !in RemoveCookbooks && '%' !in Untar
  {
  }

  lemma TidyPlain()
    ensures '%' !in RenameCookbooks && '%' !in RemoveTarball
  {
  }

  /** The text around the directive holds no `%` either. */
  lemma TarballPlain()
    ensures '%' !in TarballPrefix && '%' !in TarballSuffix
  {
  }

  lemma WriteSoloRbPlain()
    ensures '%' !in WriteSoloRb
  {
    SoloRbPlain();
    Shell.EscapeAdds(SoloRb, '%');
  }

  /** SOLO_RB holds no `%`, so formatting leaves it alone. */
  lemma SoloRbPlain()
    ensures '%' !in SoloRb
  {
    SoloRbHeadPlain();
    SoloRbTailPlain();
  }

  lemma SoloRbHeadPlain()
    ensures '%' !in SoloRbHead
  {
  }

  lemma SoloRbTailPlain()
    ensures '%' !in SoloRbTail
  {
    SoloRbCookbooksPlain();
  }

  lemma SoloRbCookbooksPlain()
    ensures '%' !in SoloRbCookbooks
  {
  }

  /** The substitution keeps the batch's length and order and changes only the
      tarball command, whose `%{branch}` becomes the branch. */
  lemma PrepChefSubstitution(branch: Option<string>)
    ensures |PrepChefCommands(branch)| == |PrepChef|
    ensures forall i | 0 <= i < |PrepChef| && i != TarballIndex :: PrepChefCommands(branch)[i] == PrepChef[i]
    ensures PrepChefCommands(branch)[TarballIndex] == TarballPrefix + branch.GetOr("") + TarballSuffix
  {
    var b := branch.GetOr("");
    PrepChefPlain();
    forall i | 0 <= i < |PrepChef| && i != TarballIndex
      ensures PrepChefCommands(branch)[i] == PrepChef[i]
    {
      ReplaceAllAbsent(PrepChef[i], BranchDirective, b);
    }
    TarballPlain();
    ReplaceAllSingle(TarballPrefix, BranchDirective, TarballSuffix, b);
  }

  /** Where the chef-solo configuration and attribute document live. */
  const SoloRbPath: string := "/tmp/vm-provisioning" + "/assets/solo.rb"
  const SoloJsonPath: string := "/tmp/vm-provisioning" + "/assets/solo.json"

  /** The commands of `run_chef` once the attribute document is known. */
  function RunChefCommands(encoded: string): seq<string> {
    [
      "sudo apt-get update -qq",
      "echo " + Shell.Escape(encoded) + " > " + SoloJsonPath,
      "sudo chef-solo -c " + SoloRbPath + " -j " + SoloJsonPath
    ]
  }

  /** `run_chef` refreshes the package lists, has the shell hand `echo`
      exactly the encoded document, written to `solo.json`, and then runs
      chef-solo on that file. */
  lemma RunChefWritesDocument(encoded: string)
    ensures |RunChefCommands(encoded)| == 3
    ensures exists w :: Shell.ShellRead(w) == encoded &&
              RunChefCommands(encoded)[1] == "echo " + w + " > " + SoloJsonPath
    ensures exists rest :: RunChefCommands(encoded)[2] == "sudo chef-solo -c " + SoloRbPath + rest + SoloJsonPath
  {
    Shell.EscapeRoundTrip(encoded);
    assert Shell.ShellRead(Shell.Escape(encoded)) == encoded;
  }

  // ---------------------------------------------------------------------
  // The skip policy

  /** The options `full_run` reads. */
  datatype RunOptions = RunOptions(customBaseName: Option<bool>, imageType: Option<string>, cookbooksBranch: Option<string>)

  /** `skip_setup?`: never when `:custom_base_name` is exactly false,
      otherwise whenever the image type is not `standard`. */
  function SkipSetup(opts: RunOptions): (skip: bool)
    ensures opts.customBaseName == Some(false) ==> !skip
    ensures opts.customBaseName != Some(false) ==> (skip <==> opts.imageType != Some("standard"))
  {
    if opts.customBaseName == Some(false) then false else opts.imageType != Some("standard")
  }

  // ---------------------------------------------------------------------
  // The attribute document

  /** A parsed template file; an absent key is None (Ruby's nil). */
  datatype TemplateFile = TemplateFile(json: Option<Hash>, recipes: Option<seq<string>>)

  /** What a missing file contributes: `{}`. */
  const NoFile: TemplateFile := TemplateFile(None, None)

  /** The merged configuration `parse_template_configs` returns. */
  datatype BoxConfig = BoxConfig(json: Hash, recipes: seq<string>)

  /** One step of the `inject`: `(result['json'] || {}).deep_merge(config['json'] || {})`
      and `(result['recipes'] || []).concat(config['recipes'] || [])`. */
  function MergeStep(result: BoxConfig, config: TemplateFile): BoxConfig {
    BoxConfig(DeepMerge(result.json, config.json.GetOr(map[])), result.recipes + config.recipes.GetOr([]))
  }

  /** The fold of the configs from the left, starting from `{}`. */
  function FoldConfigs(configs: seq<TemplateFile>): BoxConfig {
    if configs == [] then BoxConfig(map[], [])
    else MergeStep(FoldConfigs(configs[..|configs| - 1]), configs[|configs| - 1])
  }

  /** `configs.inject({}) { ... }`, the loop that builds the document. */
  method InjectConfigs(configs: seq<TemplateFile>) returns (result: BoxConfig)
    ensures result == FoldConfigs(configs)
  {
    result := BoxConfig(map[], []);
    var i := 0;
    while i < |configs|
      invariant 0 <= i <= |configs|
      invariant result == FoldConfigs(configs[..i])
    {
      assert configs[..i + 1][..i] == configs[..i];
      result := MergeStep(result, configs[i]);
      i := i + 1;
    }
    assert configs[..i] == configs;
  }

  /** For the common and the standard file: the json maps deep-merged, common
      first, and the common recipes followed by the standard ones. */
  lemma FoldCommonStandard(common: TemplateFile, standard: TemplateFile)
    ensures FoldConfigs([common, standard]) ==
      BoxConfig(DeepMerge(common.json.GetOr(map[]), standard.json.GetOr(map[])),
                common.recipes.GetOr([]) + standard.recipes.GetOr([]))
  {
    assert [common, standard][..1] == [common];
    assert [common][..0] == [];
    DeepMergeEmpty(common.json.GetOr(map[]));
    var first := FoldConfigs([common]);
    assert FoldConfigs([]) == BoxConfig(map[], []);
    assert first == MergeStep(FoldConfigs([]), common);
    assert first.recipes == common.recipes.GetOr([]);
    assert first.json == common.json.GetOr(map[]);
  }

  /** Two missing files give an empty document. */
  lemma FoldNoFiles()
    ensures FoldConfigs([NoFile, NoFile]) == BoxConfig(map[], [])
  {
    FoldCommonStandard(NoFile, NoFile);
    DeepMergeEmpty(map[]);
  }

  /** `box_config['json'].merge!({'system_info' => {'cookbooks_sha' => sha}})`. */
  function WithSystemInfo(json: Hash, sha: string): Hash {
    json["system_info" := Object(map["cookbooks_sha" := Str(sha)])]
  }

  function Strs(items: seq<string>): (vs: seq<Value>)
    ensures |vs| == |items| && forall i | 0 <= i < |items| :: vs[i] == Str(items[i])
  {
    seq(|items|, i requires 0 <= i < |items| => Str(items[i]))
  }

  /** `box_config['json'].merge('run_list' => create_run_list)`. */
  function WithRunList(json: Hash, recipes: seq<string>): Hash {
    json["run_list" := List(Strs(Chef.RunList(recipes)))]
  }

  /** The stored json gains the cookbooks SHA, replacing any earlier
      `system_info`, and nothing else; a `run_list` is there only if the
      templates had one. */
  lemma StoredJson(json: Hash, sha: string)
    ensures var stored := WithSystemInfo(json, sha);
      && stored.Keys == json.Keys + {"system_info"}
      && stored["system_info"] == Object(map["cookbooks_sha" := Str(sha)])
      && ("run_list" in stored <==> "run_list" in json)
      && (forall k | k in json && k != "system_info" :: stored[k] == json[k])
  {
  }

  /** Stamping the same SHA twice is stamping it once. */
  lemma WithSystemInfoTwice(json: Hash, sha: string)
    ensures WithSystemInfo(WithSystemInfo(json, sha), sha) == WithSystemInfo(json, sha)
  {
  }

  /** The document chef-solo receives holds the run list built from the
      recipes and the cookbooks SHA, and keeps every other key of the json. */
  lemma ChefDocumentKeys(json: Hash, recipes: seq<string>, sha: string)
    ensures var doc := WithRunList(WithSystemInfo(json, sha), recipes);
      && doc.Keys == json.Keys + {"system_info", "run_list"}
      && doc["system_info"] == Object(map["cookbooks_sha" := Str(sha)])
      && doc["run_list"] == List(Strs(Chef.RunList(recipes)))
      && |doc["run_list"].items| == |recipes|
      && (forall i | 0 <= i < |recipes| :: doc["run_list"].items[i] == Str(Chef.RunListItem(recipes[i])))
      && (forall k | k in json && k != "system_info" && k != "run_list" :: doc[k] == json[k])
  {
    var doc := WithRunList(WithSystemInfo(json, sha), recipes);
    assert doc["run_list"] == List(Strs(Chef.RunList(recipes)));
  }

  // ---------------------------------------------------------------------
  // The session oracle and fail-fast execution

  datatype Chunk = Stdout(data: string) | Stderr(data: string)

  /** What one command does on the remote host: its output chunks in arrival
      order, then its exit status. */
  datatype Reply = Reply(output: seq<Chunk>, exitStatus: int)

  function Status(replies: nat -> Reply, n: nat): int {
    replies(n).exitStatus
  }

  /** The commands numbered `start` to `start + k - 1` all exit with 0. */
  predicate Succeeds(replies: nat -> Reply, start: nat, k: nat) {
    forall j | start <= j < start + k :: Status(replies, j) == 0
  }

  /** How many of `commands` a fail-fast run starting at command number
      `start` executes: up to and including the first non-zero status. */
  function Ran(replies: nat -> Reply, start: nat, commands: seq<string>): (n: nat)
    ensures n <= |commands|
    decreases |commands|
  {
    if commands == [] then 0
    else if Status(replies, start) == 0 then 1 + Ran(replies, start + 1, commands[1..])
    else 1
  }

  /** Fail-fast: a run that succeeds executes every command; a run that fails
      executes a prefix whose last command is the first that failed. */
  lemma {:induction false} RanFailFast(replies: nat -> Reply, start: nat, commands: seq<string>)
    ensures Succeeds(replies, start, |commands|) ==> Ran(replies, start, commands) == |commands|
    ensures !Succeeds(replies, start, |commands|) ==>
      var n := Ran(replies, start, commands);
      1 <= n && Succeeds(replies, start, n - 1) && Status(replies, start + n - 1) != 0
    decreases |commands|
  {
    if commands != [] && Status(replies, start) == 0 {
      RanFailFast(replies, start + 1, commands[1..]);
      var n := Ran(replies, start + 1, commands[1..]);
      SucceedsConcat(replies, start, 1, |commands| - 1);
      if n > 0 {
        SucceedsConcat(replies, start, 1, n - 1);
      }
    }
  }

  /** A run over `a + b` is a run over `a` and, only if that succeeded, a run over `b`. */
  lemma {:induction false} RanConcat(replies: nat -> Reply, start: nat, a: seq<string>, b: seq<string>)
    ensures Ran(replies, start, a + b) ==
      if Succeeds(replies, start, |a|) then |a| + Ran(replies, start + |a|, b) else Ran(replies, start, a)
    ensures Succeeds(replies, start, |a + b|) <==> Succeeds(replies, start, |a|) && Succeeds(replies, start + |a|, |b|)
    decreases |a|
  {
    if a != [] {
      assert (a + b)[1..] == a[1..] + b;
      RanConcat(replies, start + 1, a[1..], b);
      if Status(replies, start) == 0 {
        assert Succeeds(replies, start, |a|) <==> Succeeds(replies, start + 1, |a| - 1);
      } else {
        assert !Succeeds(replies, start, |a|);
      }
    } else {
      assert a + b == b;
    }
  }

  /** Commands `start .. start + a + b - 1` succeed iff the first `a` and the
      next `b` do. */
  lemma SucceedsConcat(replies: nat -> Reply, start: nat, a: nat, b: nat)
    ensures Succeeds(replies, start, a + b) <==> Succeeds(replies, start, a) && Succeeds(replies, start + a, b)
  {
    if Succeeds(replies, start, a) && Succeeds(replies, start + a, b) {
      forall j | start <= j < start + a + b
        ensures Status(replies, j) == 0
      {
        if j >= start + a {
          assert start + a <= j < start + a + b;
        }
      }
    }
  }

  /** A run none of whose commands fails runs all of them. */
  lemma {:induction false} RanAll(replies: nat -> Reply, start: nat, commands: seq<string>)
    requires Succeeds(replies, start, |commands|)
    ensures Ran(replies, start, commands) == |commands|
    decreases |commands|
  {
    if commands != [] {
      assert Status(replies, start) == 0;
      SucceedsConcat(replies, start, 1, |commands| - 1);
      RanAll(replies, start + 1, commands[1..]);
    }
  }

  /** One more command of a fail-fast run: it runs, and the run goes on past
      it only if it exited with 0. */
  lemma RanStep(replies: nat -> Reply, start: nat, commands: seq<string>, i: nat)
    requires i < |commands|
    ensures Ran(replies, start + i, commands[i..]) ==
      if Status(replies, start + i) == 0 then 1 + Ran(replies, start + i + 1, commands[i + 1..]) else 1
    ensures Succeeds(replies, start, i + 1) <==> Succeeds(replies, start, i) && Status(replies, start + i) == 0
  {
    assert commands[i..][1..] == commands[i + 1..];
  }

  function ChunksText(chunks: seq<Chunk>): string {
    if chunks == [] then [] else ChunksText(chunks[..|chunks| - 1]) + chunks[|chunks| - 1].data
  }

  /** Everything commands `start` to `start + k - 1` print, in order. */
  function OutputText(replies: nat -> Reply, start: nat, k: nat): string {
    if k == 0 then [] else OutputText(replies, start, k - 1) + ChunksText(replies(start + k - 1).output)
  }

  lemma {:induction false} OutputTextConcat(replies: nat -> Reply, start: nat, a: nat, b: nat)
    ensures OutputText(replies, start, a + b) == OutputText(replies, start, a) + OutputText(replies, start + a, b)
    decreases b
  {
    if b > 0 {
      OutputTextConcat(replies, start, a, b - 1);
    }
  }

  /** After one more command the history has grown by that command and the
      log by its output. */
  lemma SentOneMore(replies: nat -> Reply, start: nat, commands: seq<string>, i: nat,
                    e0: seq<string>, l0: string, e: seq<string>, l: string)
    requires i < |commands|
    requires e == (e0 + commands[..i]) + [commands[i]]
    requires l == (l0 + OutputText(replies, start, i)) + ChunksText(replies(start + i).output)
    ensures e == e0 + commands[..i + 1]
    ensures l == l0 + OutputText(replies, start, i + 1)
  {
    assert commands[..i + 1] == commands[..i] + [commands[i]];
    AppendAssoc(e0, commands[..i], [commands[i]]);
    AppendAssoc(l0, OutputText(replies, start, i), ChunksText(replies(start + i).output));
  }

  /** The bookkeeping that lets `full_run` be read as one fail-fast run over
      its whole command list `pipeline`: `done` has run and succeeded, and
      stage `stage` comes next. */
  lemma NextStage(replies: nat -> Reply, start: nat, pipeline: seq<string>, done: seq<string>, stage: seq<string>)
    requires done + stage <= pipeline
    requires Succeeds(replies, start, |done|)
    ensures var n := Ran(replies, start + |done|, stage);
      && (Succeeds(replies, start + |done|, |stage|) ==> Succeeds(replies, start, |done + stage|) && n == |stage|)
      && (!Succeeds(replies, start + |done|, |stage|) ==>
            && done + stage[..n] == pipeline[..Ran(replies, start, pipeline)]
            && |done| + n == Ran(replies, start, pipeline)
            && !Succeeds(replies, start, |pipeline|))
  {
    var rest := pipeline[|done + stage|..];
    assert pipeline == done + (stage + rest);
    RanConcat(replies, start, done, stage + rest);
    RanConcat(replies, start + |done|, stage, rest);
    RanFailFast(replies, start + |done|, stage);
    assert |done + stage| == |done| + |stage|;
    RanConcat(replies, start, done, stage);
  }

  /** A run that started with history `e0` and log `l0` has sent exactly
      `done`, every command of which exited with 0: the history `e` and log
      `l` are the start's followed by those commands and their output. */
  ghost predicate Progress(replies: nat -> Reply, e0: seq<string>, l0: string, done: seq<string>, e: seq<string>, l: string) {
    && e == e0 + done
    && l == l0 + OutputText(replies, |e0|, |done|)
    && Succeeds(replies, |e0|, |done|)
  }

  /** A fail-fast run over `pipeline` that started with history `e0` and log
      `l0` stopped at its first failing command. */
  ghost predicate Stopped(replies: nat -> Reply, e0: seq<string>, l0: string, pipeline: seq<string>, e: seq<string>, l: string) {
    && e == e0 + pipeline[..Ran(replies, |e0|, pipeline)]
    && l == l0 + OutputText(replies, |e0|, Ran(replies, |e0|, pipeline))
    && !Succeeds(replies, |e0|, |pipeline|)
  }

  /** One stage of `full_run` that succeeded, in terms of the session's
      history `e` and log `l` after it: the run so far is `done + stage`. */
  lemma StageSucceeded(replies: nat -> Reply, start: nat, e0: seq<string>, l0: string,
                       done: seq<string>, stage: seq<string>, e: seq<string>, l: string)
    requires Succeeds(replies, start, |done|)
    requires Succeeds(replies, start + |done|, |stage|)
    requires e == (e0 + done) + stage[..Ran(replies, start + |done|, stage)]
    requires l == (l0 + OutputText(replies, start, |done|)) + OutputText(replies, start + |done|, Ran(replies, start + |done|, stage))
    ensures e == e0 + (done + stage)
    ensures l == l0 + OutputText(replies, start, |done + stage|)
    ensures Succeeds(replies, start, |done + stage|)
  {
    RanAll(replies, start + |done|, stage);
    assert stage[..|stage|] == stage;
    AppendAssoc(e0, done, stage);
    OutputTextConcat(replies, start, |done|, |stage|);
    AppendAssoc(l0, OutputText(replies, start, |done|), OutputText(replies, start + |done|, |stage|));
    SucceedsConcat(replies, start, |done|, |stage|);
    assert |done + stage| == |done| + |stage|;
  }

  /** One stage of `full_run` that failed: the history and log are those of
      one fail-fast run over the whole pipeline, which does not succeed. */
  lemma StageFailed(replies: nat -> Reply, start: nat, e0: seq<string>, l0: string, pipeline: seq<string>,
                    done: seq<string>, stage: seq<string>, e: seq<string>, l: string)
    requires done + stage <= pipeline
    requires Succeeds(replies, start, |done|)
    requires !Succeeds(replies, start + |done|, |stage|)
    requires e == (e0 + done) + stage[..Ran(replies, start + |done|, stage)]
    requires l == (l0 + OutputText(replies, start, |done|)) + OutputText(replies, start + |done|, Ran(replies, start + |done|, stage))
    ensures e == e0 + pipeline[..Ran(replies, start, pipeline)]
    ensures l == l0 + OutputText(replies, start, Ran(replies, start, pipeline))
    ensures !Succeeds(replies, start, |pipeline|)
  {
    var n := Ran(replies, start + |done|, stage);
    NextStage(replies, start, pipeline, done, stage);
    AppendAssoc(e0, done, stage[..n]);
    OutputTextConcat(replies, start, |done|, n);
    AppendAssoc(l0, OutputText(replies, start, |done|), OutputText(replies, start + |done|, n));
  }

  /** The five batches of `full_run`, each a continuation of those before it. */
  lemma PipelinePrefixes(a: seq<string>, b: seq<string>, c: seq<string>, d: seq<string>, e: seq<string>)
    ensures [] + a <= a + b + c + d + e
    ensures a + b <= a + b + c + d + e
    ensures a + b + c <= a + b + c + d + e
    ensures a + b + c + d <= a + b + c + d + e
  {
    assert [] + a == a;
  }

  // ---------------------------------------------------------------------
  // The provisioner object

  class Provisioner {
    const host: string
    const user: string
    const password: string
    const boxType: string
    const dist: string
    const branch: Option<string>
    const templatesPath: string
    /** The template files present on disk, by path, as YAML parses them. */
    const files: map<string, TemplateFile>
    /** The remote session. */
    const replies: nat -> Reply
    /** The GitHub API, for `sha_for_repo`. */
    const github: string -> Option<string>
    /** `MultiJson.encode`. */
    const encodeJson: Hash -> string

    /** Everything the commands printed so far. */
    var log: string
    /** The commands sent over the session so far. */
    var executed: seq<string>
    /** The memo of `box_config`. */
    var boxConfig: Option<BoxConfig>

    constructor (host: string, user: string, password: string, boxType: string, dist: string,
                 branch: Option<string>, templatesPath: string, files: map<string, TemplateFile>,
                 replies: nat -> Reply, github: string -> Option<string>, encodeJson: Hash -> string)
      ensures this.host == host && this.user == user && this.password == password
      ensures this.boxType == boxType && this.dist == dist && this.branch == branch
      ensures this.templatesPath == templatesPath && this.files == files
      ensures this.replies == replies && this.github == github && this.encodeJson == encodeJson
      ensures log == "" && executed == [] && boxConfig == None
      ensures Valid()
    {
      this.host, this.user, this.password := host, user, password;
      this.boxType, this.dist, this.branch := boxType, dist, branch;
      this.templatesPath, this.files := templatesPath, files;
      this.replies, this.github, this.encodeJson := replies, github, encodeJson;
      log := "";
      executed := [];
      boxConfig := None;
    }

    /** The memo holds nothing yet, the parsed configuration, or the parsed
        configuration with the cookbooks SHA stamped in. */
    ghost predicate Valid()
      reads this`boxConfig
    {
      boxConfig == None || boxConfig == Some(ParsedConfig()) || boxConfig == Some(StampedConfig())
    }

    /** `"#{templates_path}/#{type}/#{box_type}.yml"`. */
    function TemplatePath(kind: string): string {
      templatesPath + "/" + kind + "/" + boxType + ".yml"
    }

    /** `parse_template_config(type)`: the parsed file, or `{}` when it does not exist. */
    function TemplateConfig(kind: string): (c: TemplateFile)
      ensures TemplatePath(kind) !in files ==> c == NoFile
    {
      if TemplatePath(kind) in files then files[TemplatePath(kind)] else NoFile
    }

    function ParsedConfig(): BoxConfig {
      FoldConfigs([TemplateConfig("common"), TemplateConfig("standard")])
    }

    /** `sha_for_repo('travis-ci/travis-cookbooks')` on the provisioner's branch. */
    function CookbooksSha(): string {
      GitHub.ShaForRepo(github, "travis-ci/travis-cookbooks", branch, 7)
    }

    function StampedConfig(): BoxConfig {
      ParsedConfig().(json := WithSystemInfo(ParsedConfig().json, CookbooksSha()))
    }

    /** The document `updated_run_list` returns. */
    function ChefDocument(): Hash {
      WithRunList(StampedConfig().json, ParsedConfig().recipes)
    }

    /** Every command `full_run` would send, in order, with the setup batch
        left out when `skip_setup?` holds. */
    function Pipeline(opts: RunOptions): seq<string> {
      (if SkipSetup(opts) then [] else SetupEnv)
      + InstallChef
      + PrepChefCommands(opts.cookbooksBranch)
      + RunChefCommands(encodeJson(ChefDocument()))
      + CleanUp
    }

    /** A skipped setup batch is never sent: the pipeline then opens with Chef's installation. */
    lemma SkippedSetupNeverRuns(opts: RunOptions)
      requires SkipSetup(opts)
      ensures Pipeline(opts)[..|InstallChef|] == InstallChef
      ensures Pipeline(opts)[0] != SetupEnv[0]
    {
      assert Pipeline(opts) == InstallChef + (PrepChefCommands(opts.cookbooksBranch)
        + RunChefCommands(encodeJson(ChefDocument())) + CleanUp);
    }

    /** `parse_template_configs`. */
    method ParseTemplateConfigs() returns (result: BoxConfig)
      ensures result == ParsedConfig()
      ensures result.json == DeepMerge(TemplateConfig("common").json.GetOr(map[]), TemplateConfig("standard").json.GetOr(map[]))
      ensures result.recipes == TemplateConfig("common").recipes.GetOr([]) + TemplateConfig("standard").recipes.GetOr([])
    {
      var configs := [TemplateConfig("common"), TemplateConfig("standard")];
      result := InjectConfigs(configs);
      FoldCommonStandard(configs[0], configs[1]);
    }

    /** `box_config`: parses once, then answers from the memo. */
    method GetBoxConfig() returns (config: BoxConfig)
      requires Valid()
      modifies this`boxConfig
      ensures Valid()
      ensures boxConfig == Some(config)
      ensures old(boxConfig) != None ==> boxConfig == old(boxConfig)
      ensures old(boxConfig) == None ==> config == ParsedConfig()
    {
      if boxConfig == None {
        var parsed := ParseTemplateConfigs();
        boxConfig := Some(parsed);
      }
      config := boxConfig.value;
    }

    /** `updated_run_list`: stamps the SHA into the memo's json and returns
        that json with the run list added. */
    method UpdatedRunList() returns (doc: Hash)
      requires Valid()
      modifies this`boxConfig
      ensures Valid()
      ensures boxConfig == Some(StampedConfig())
      ensures doc == ChefDocument()
    {
      var config := GetBoxConfig();
      var json := WithSystemInfo(config.json, CookbooksSha());
      if config != ParsedConfig() {
        WithSystemInfoTwice(ParsedConfig().json, CookbooksSha());
      }
      assert json == StampedConfig().json && config.recipes == ParsedConfig().recipes;
      boxConfig := Some(config.(json := json));
      doc := WithRunList(json, config.recipes);
    }

    /** `exec`: sends the command, appends each chunk of output to the log as
        it arrives, and returns the exit status. */
    method Exec(command: string) returns (status: int)
      modifies this`log, this`executed
      ensures executed == old(executed) + [command]
      ensures status == Status(replies, |old(executed)|)
      ensures log == old(log) + ChunksText(replies(|old(executed)|).output)
    {
      var reply := replies(|executed|);
      var i := 0;
      while i < |reply.output|
        invariant 0 <= i <= |reply.output|
        invariant log == old(log) + ChunksText(reply.output[..i])
        invariant executed == old(executed)
      {
        assert reply.output[..i + 1][..i] == reply.output[..i];
        log := log + reply.output[i].data;
        i := i + 1;
      }
      assert reply.output[..i] == reply.output;
      executed := executed + [command];
      status := reply.exitStatus;
    }

    /** `run_commands`: runs the commands in order and stops at the first
        non-zero status; true iff every command exited with 0. */
    method RunCommands(commands: seq<string>) returns (ok: bool)
      modifies this`log, this`executed
      ensures ok == Succeeds(replies, |old(executed)|, |commands|)
      ensures executed == old(executed) + commands[..Ran(replies, |old(executed)|, commands)]
      ensures log == old(log) + OutputText(replies, |old(executed)|, Ran(replies, |old(executed)|, commands))
    {
      ghost var start := |executed|;
      ok := true;
      var i := 0;
      while i < |commands| && ok
        invariant 0 <= i <= |commands|
        invariant executed == old(executed) + commands[..i]
        invariant log == old(log) + OutputText(replies, start, i)
        invariant ok == Succeeds(replies, start, i)
        invariant Ran(replies, start, commands) == if ok then i + Ran(replies, start + i, commands[i..]) else i
      {
        RanStep(replies, start, commands, i);
        assert |executed| == start + i;
        var status := Exec(commands[i]);
        SentOneMore(replies, start, commands, i, old(executed), old(log), executed, log);
        ok := status == 0;
        i := i + 1;
      }
      RanFailFast(replies, start, commands);
    }

    /** One stage of `full_run` (`setup_env`, `install_chef`, `prep_chef`,
        `run_chef`'s commands, `clean_up`): `run_commands` on the stage's
        batch, seen as the continuation of a run over `pipeline` that has
        sent `done` so far. */
    method RunStage(ghost e0: seq<string>, ghost l0: string, ghost pipeline: seq<string>, ghost done: seq<string>,
                    stage: seq<string>) returns (ok: bool)
      requires done + stage <= pipeline
      requires Progress(replies, e0, l0, done, executed, log)
      modifies this`log, this`executed
      ensures ok ==> Progress(replies, e0, l0, done + stage, executed, log)
      ensures !ok ==> Stopped(replies, e0, l0, pipeline, executed, log)
    {
      ghost var before, logBefore := executed, log;
      assert |before| == |e0| + |done|;
      ok := RunCommands(stage);
      ghost var n := Ran(replies, |e0| + |done|, stage);
      assert executed == before + stage[..n];
      assert log == logBefore + OutputText(replies, |e0| + |done|, n);
      if !ok {
        StageFailed(replies, |e0|, e0, l0, pipeline, done, stage, executed, log);
      } else {
        StageSucceeded(replies, |e0|, e0, l0, done, stage, executed, log);
      }
    }

    /** `run_chef`: stamps the document, then runs the batch that writes and
        applies it, as the fourth stage of a run over `pipeline`. */
    method RunChef(ghost e0: seq<string>, ghost l0: string, ghost pipeline: seq<string>, ghost done: seq<string>)
      returns (ok: bool)
      requires Valid()
      requires done + RunChefCommands(encodeJson(ChefDocument())) <= pipeline
      requires Progress(replies, e0, l0, done, executed, log)
      modifies this
      ensures Valid() && boxConfig == Some(StampedConfig())
      ensures ok ==> Progress(replies, e0, l0, done + RunChefCommands(encodeJson(ChefDocument())), executed, log)
      ensures !ok ==> Stopped(replies, e0, l0, pipeline, executed, log)
    {
      var doc := UpdatedRunList();
      ok := RunStage(e0, l0, pipeline, done, RunChefCommands(encodeJson(doc)));
    }

    /** `full_run`: `(skip_setup? || setup_env) && install_chef && prep_chef
        && run_chef && clean_up`. Its effect is one fail-fast run over the
        whole pipeline: true iff every command sent exited with 0, and no
        command after the first failure is sent. */
    method FullRun(opts: RunOptions) returns (ok: bool)
      requires Valid()
      modifies this
      ensures Valid()
      ensures ok ==> Progress(replies, old(executed), old(log), Pipeline(opts), executed, log)
      ensures !ok ==> Stopped(replies, old(executed), old(log), Pipeline(opts), executed, log)
      ensures boxConfig == old(boxConfig) || boxConfig == Some(StampedConfig())
    {
      ghost var start, e0, l0 := |executed|, executed, log;
      var setup := if SkipSetup(opts) then [] else SetupEnv;
      var prep := PrepChefCommands(opts.cookbooksBranch);
      ghost var chef := RunChefCommands(encodeJson(ChefDocument()));
      ghost var p := setup + InstallChef + prep + chef + CleanUp;
      assert p == Pipeline(opts);
      PipelinePrefixes(setup, InstallChef, prep, chef, CleanUp);
      assert Progress(replies, e0, l0, [], executed, log);

      if !SkipSetup(opts) {
        ok := RunStage(e0, l0, p, [], setup);
        if !ok { return; }
      }
      ok := RunStage(e0, l0, p, setup, InstallChef);
      if !ok { return; }
      ok := RunStage(e0, l0, p, setup + InstallChef, prep);
      if !ok { return; }
      ok := RunChef(e0, l0, p, setup + InstallChef + prep);
      if !ok { return; }
      ok := RunStage(e0, l0, p, setup + InstallChef + prep + chef, CleanUp);
      if !ok { return; }
    }
  }
}
