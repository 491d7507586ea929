/**
 * The command's workflow (src/main.ts): flag handling, the repository and
 * staged-change gates, the two menus, drafting, statistics, and the
 * use / edit / cancel decision with its temporary-file clean-up.
 *
 * Every collaborator (the file system, git, the chat model, the terminal
 * prompts, the editor) is replaced by its answer, recorded in a `World`;
 * a run returns the effects it performed, in order, its exit status and
 * whether it left the temporary message file behind.
 */
module Workflow {
  import opened Base
  import opened Types
  import opened JsText
  import Config
  import Format
  import Git
  import Ai
  import Editor

  /** The parsed command line: `--help`, `--version` and `--path`. */
  datatype Flags = Flags(help: bool, version: bool, path: Option<string>)

  /** The answer to the final menu. */
  datatype Decision = Use | Edit | Cancel

  /**
   * What the collaborators answer during one run, at the level of the
   * services `main` calls.  A `Failed` stands for a thrown error (including
   * a prompt the user aborted); a boolean for a step that either succeeds
   * or throws.  How the services compute their answers from git's output
   * and the model's reply is modelled in `Git` and `Ai`: `stagedFiles` is
   * `Git.StagedFiles` of the listing, `generated` is the `result` of
   * `Ai.GenerateCommit`, `stats` is what `Git.DiffStatistics` computes.
   */
  datatype World = World(
    cwd: string,                       // the working directory, used without `--path`
    gitDirExists: Result<bool>,        // whether `<path>/.git` exists
    stagedFiles: Result<seq<string>>,  // `getStagedFiles`
    typeAnswer: Result<string>,        // the commit-type menu
    languageAnswer: Result<string>,    // the language menu
    diff: Result<string>,              // `git diff --staged`
    generated: Result<GeneratedCommit>,// `generateCommit`
    stats: Result<Git.DiffStats>,      // `getDiffStatistics`
    decision: Result<Decision>,        // the use / edit / cancel menu
    commitOk: bool,                    // `git commit -m ...`
    tempMade: bool,                    // creating the temporary file
    tempWritten: bool,                 // writing the draft into it
    editorVar: Option<string>,         // `EDITOR`
    visualVar: Option<string>,         // `VISUAL`
    vimInstalled: bool,                // `which vim`
    nanoInstalled: bool,               // `which nano`
    editorExit: Editor.EditorExit,     // how the editor process ended
    fileCommitOk: bool,                // `git commit -F <file>`
    removeOk: bool                     // removing the temporary file
  )

  /** The commit-type menu: every configured type, labelled. */
  const TYPE_MENU: seq<MenuEntry> := Format.FormatCommitTypeOptions(Config.COMMIT_TYPES)

  /** The language menu. */
  const LANGUAGE_MENU: seq<MenuEntry> := Format.FormatLanguageOptions(Config.LANGUAGE_OPTIONS)

  /** The commit-type menu answers the value of a configured type; the language menu, English or Indonesian. */
  lemma MenusOffered()
    ensures Format.MenuValues(TYPE_MENU) ==
      ["feat", "fix", "docs", "style", "refactor", "perf", "test", "build", "ci", "chore", "revert"]
    ensures Format.MenuValues(LANGUAGE_MENU) == ["english", "indonesian"]
  {
    Format.ConfiguredLanguageValues();
  }

  /** The one line `--version` prints. */
  function VersionLine(): (line: string)
    ensures '\n' !in line
  {
    "Git Commit Message Generator v" + Config.VERSION
  }

  /** An observable step of a run. */
  datatype Effect =
    | ShowHelp
    | ShowVersion(line: string)
    | CheckRepository(path: string)
    | ListStagedFiles(path: string)
    | PromptCommitType                  // the menu `TYPE_MENU`
    | PromptLanguage                    // the menu `LANGUAGE_MENU`
    | ReadStagedDiff(path: string)
    | GenerateCommit(diff: string, commitType: string, language: string)
    | ShowDraft(text: string)
    | ReadDiffStatistics(path: string)
    | ShowStatistics(stats: Git.DiffStats)
    | PromptDecision
    | CommitWithArgs(args: seq<string>, path: string)
    | MakeTempFile
    | WriteTempFile(content: string)
    | RunProbe(probe: Editor.Probe)
    | LaunchEditor(command: string)
    | CommitFromFile(path: string)
    | RemoveTempFile

  /** Where each kind of step sits in the order the workflow performs them. */
  function Rank(e: Effect): nat {
    match e
    case ShowHelp => 0
    case ShowVersion(_) => 1
    case CheckRepository(_) => 2
    case ListStagedFiles(_) => 3
    case PromptCommitType => 4
    case PromptLanguage => 5
    case ReadStagedDiff(_) => 6
    case GenerateCommit(_, _, _) => 7
    case ShowDraft(_) => 8
    case ReadDiffStatistics(_) => 9
    case ShowStatistics(_) => 10
    case PromptDecision => 11
    case CommitWithArgs(_, _) => 12
    case MakeTempFile => 13
    case WriteTempFile(_) => 14
    case RunProbe(p) => if p == Editor.ProbeVim then 15 else 16
    case LaunchEditor(_) => 17
    case CommitFromFile(_) => 18
    case RemoveTempFile => 19
  }

  /** Every step comes later in the workflow's order than every step before it. */
  predicate InOrder(trace: seq<Effect>) {
    forall i, j :: 0 <= i < j < |trace| ==> Rank(trace[i]) < Rank(trace[j])
  }

  /** Two ordered traces, the second starting after the first ends, make an ordered trace. */
  lemma Concat(a: seq<Effect>, b: seq<Effect>)
    requires InOrder(a) && InOrder(b)
    requires a != [] && b != [] ==> Rank(a[|a| - 1]) < Rank(b[0])
    ensures InOrder(a + b)
  {
  }

  /** Every step of a non-empty ordered trace lies between its first and its last step. */
  lemma RankBounds(trace: seq<Effect>)
    requires InOrder(trace) && trace != []
    ensures forall e :: e in trace ==> Rank(trace[0]) <= Rank(e) <= Rank(trace[|trace| - 1])
  {
  }

  /** An ordered trace whose steps all rank from `lo` up to, but not including, `hi`. */
  predicate Within(trace: seq<Effect>, lo: nat, hi: nat) {
    InOrder(trace) && (trace != [] ==> lo <= Rank(trace[0]) && Rank(trace[|trace| - 1]) < hi)
  }

  /** Two ordered traces in adjacent rank ranges join into one. */
  lemma JoinWithin(a: seq<Effect>, b: seq<Effect>, lo: nat, mid: nat, hi: nat)
    requires lo <= mid <= hi && Within(a, lo, mid) && Within(b, mid, hi)
    ensures Within(a + b, lo, hi)
  {
    Concat(a, b);
    var t := a + b;
    if a != [] && b != [] {
      assert t[0] == a[0] && t[|t| - 1] == b[|b| - 1];
    }
  }

  /** The number of drafting requests in a trace. */
  function Requests(trace: seq<Effect>): nat {
    if trace == [] then 0
    else (if trace[0].GenerateCommit? then 1 else 0) + Requests(trace[1..])
  }

  /** A trace without a request step has no requests. */
  lemma {:induction false} NoRequests(trace: seq<Effect>)
    requires forall e :: e in trace ==> !e.GenerateCommit?
    ensures Requests(trace) == 0
  {
    if trace != [] {
      assert forall e :: e in trace[1..] ==> e in trace;
      NoRequests(trace[1..]);
    }
  }

  /** An ordered trace asks for a draft at most once. */
  lemma {:induction false} AtMostOneRequest(trace: seq<Effect>)
    requires InOrder(trace)
    ensures Requests(trace) <= 1
  {
    if |trace| > 1 {
      var rest := trace[1..];
      AtMostOneRequest(rest);
      if trace[0].GenerateCommit? {
        RankBounds(rest);
        NoRequests(rest);
      }
    }
  }

  /** The repository looked at: `--path` when given, else the working directory. */
  function RepoPath(flags: Flags, w: World): string {
    flags.path.GetOr(w.cwd)
  }

  /** The repository check, the staged-file check, both menus and the diff all succeed. */
  predicate GatesPass(w: World) {
    && w.gitDirExists == Ok(true)
    && w.stagedFiles.Ok? && w.stagedFiles.value != []
    && w.typeAnswer.Ok? && w.languageAnswer.Ok?
    && w.diff.Ok?
  }

  /** Everything before the final menu succeeds, and the menu is answered. */
  predicate ReachesDecision(w: World) {
    GatesPass(w) && w.generated.Ok? && w.stats.Ok? && w.decision.Ok?
  }

  /** The editor the edit path finds. */
  function Search(w: World): Editor.EditorSearch {
    Editor.FindAvailableEditor(w.editorVar, w.visualVar, w.vimInstalled, w.nanoInstalled)
  }

  /** The edit path gets as far as a clean editor exit. */
  predicate EditorRanCleanly(w: World) {
    && w.tempMade && w.tempWritten
    && Search(w).found.Ok?
    && w.editorExit == Editor.Exited(0)
  }

  /** The chosen branch ends without an error. */
  predicate BranchSucceeds(w: World)
    requires w.decision.Ok?
  {
    match w.decision.value
    case Use => w.commitOk
    case Cancel => true
    case Edit => EditorRanCleanly(w) && w.fileCommitOk
  }

  /** The box showing the draft: the title, a blank line and the body. */
  function DraftText(c: GeneratedCommit): string {
    c.message + "\n\n" + c.description
  }

  /**
   * A draft parsed from the model's reply and written to the temporary
   * file reads back, unedited, as the same draft.
   */
  lemma DraftSurvivesTempFile(reply: Option<string>)
    ensures var c := Ai.ParseDraft(reply);
      Git.ReadCommitMessageFile(Git.MessageFileText(c.message, Some(c.description))) == c
  {
    var c := Ai.ParseDraft(reply);
    Git.ReadAfterCreate(c.message, c.description);
  }

  /** The draft request, made with the two answers and the staged diff. */
  function Request(w: World): Effect
    requires GatesPass(w)
  {
    GenerateCommit(w.diff.value, w.typeAnswer.value, w.languageAnswer.value)
  }

  // The steps of a run, stage by stage.

  /** Every gate of `main`, in the order they run. */
  function AllGates(repoPath: string): seq<Effect> {
    [CheckRepository(repoPath), ListStagedFiles(repoPath), PromptCommitType, PromptLanguage, ReadStagedDiff(repoPath)]
  }

  /** How many gates run: each runs once those before it passed, so the last one run is the first that fails. */
  function GatesRun(w: World): (n: nat)
    ensures 1 <= n <= 5
  {
    if w.gitDirExists != Ok(true) then 1
    else if w.stagedFiles.Failed? || w.stagedFiles.value == [] then 2
    else if w.typeAnswer.Failed? then 3
    else if w.languageAnswer.Failed? then 4
    else 5
  }

  /** The gates, up to the first that fails; the diff is asked for whether or not reading it fails. */
  function GateSteps(repoPath: string, w: World): seq<Effect> {
    AllGates(repoPath)[..GatesRun(w)]
  }

  /** Drafting: the request, the draft box, the statistics and their box, and the final menu. */
  function DraftSteps(repoPath: string, w: World): seq<Effect>
    requires GatesPass(w)
  {
    if w.generated.Failed? then [Request(w)]
    else
      var shown := [Request(w), ShowDraft(DraftText(w.generated.value)), ReadDiffStatistics(repoPath)];
      if w.stats.Failed? then shown else shown + [ShowStatistics(w.stats.value), PromptDecision]
  }

  /** The effects of the editor probes, in the order they ran. */
  function ProbeEffects(probes: seq<Editor.Probe>): seq<Effect> {
    if probes == [] then [] else [RunProbe(probes[0])] + ProbeEffects(probes[1..])
  }

  /** The probes an editor search may run: none, vim, or vim and then nano. */
  predicate ProbesShape(probes: seq<Editor.Probe>) {
    probes == [] || probes == [Editor.ProbeVim] || probes == [Editor.ProbeVim, Editor.ProbeNano]
  }

  /** The search for an editor runs at most two probes, vim before nano. */
  lemma SearchProbes(w: World)
    ensures ProbesShape(Search(w).probes)
  {
  }

  /** The probe steps are nothing but probes. */
  lemma ProbeStepsOnly(probes: seq<Editor.Probe>)
    requires ProbesShape(probes)
    ensures forall e :: e in ProbeEffects(probes) ==> e.RunProbe?
  {
    if probes != [] {
      assert ProbeEffects(probes[1..]) == (if |probes| == 1 then [] else [RunProbe(Editor.ProbeNano)]);
    }
  }

  /** The probe steps are in order and come between writing the file and launching the editor. */
  lemma ProbeStepsInOrder(probes: seq<Editor.Probe>)
    requires ProbesShape(probes)
    ensures Within(ProbeEffects(probes), Rank(RunProbe(Editor.ProbeVim)), Rank(LaunchEditor([])))
  {
    if probes != [] {
      assert ProbeEffects(probes[1..]) == (if |probes| == 1 then [] else [RunProbe(Editor.ProbeNano)]);
    }
  }

  /** Launching the editor, then committing from the file when it exits cleanly. */
  function LaunchSteps(repoPath: string, command: string, exit: Editor.EditorExit): (t: seq<Effect>)
    ensures Within(t, Rank(LaunchEditor([])), Rank(RemoveTempFile)) && t != [] && t[0] == LaunchEditor(command)
  {
    if exit == Editor.Exited(0) then [LaunchEditor(command), CommitFromFile(repoPath)] else [LaunchEditor(command)]
  }

  /**
   * The guarded part of the edit branch: the probes, then the editor when
   * one was found.  The found editor is never empty, so `openEditor`
   * launches exactly it (EditBranch proves this).
   */
  function GuardedSteps(repoPath: string, search: Editor.EditorSearch, exit: Editor.EditorExit): seq<Effect> {
    var probes := ProbeEffects(search.probes);
    if search.found.Failed? then probes
    else probes + LaunchSteps(repoPath, search.found.value, exit)
  }

  /** The guarded part is in order, after writing the file and before removing it. */
  lemma GuardedInOrder(repoPath: string, search: Editor.EditorSearch, exit: Editor.EditorExit)
    requires ProbesShape(search.probes)
    ensures Within(GuardedSteps(repoPath, search, exit), Rank(RunProbe(Editor.ProbeVim)), Rank(RemoveTempFile))
  {
    var probes := ProbeEffects(search.probes);
    var lo, mid, hi := Rank(RunProbe(Editor.ProbeVim)), Rank(LaunchEditor([])), Rank(RemoveTempFile);
    assert lo <= mid <= hi;
    ProbeStepsInOrder(search.probes);
    if search.found.Failed? {
      assert GuardedSteps(repoPath, search, exit) == probes;
    } else {
      var launch := LaunchSteps(repoPath, search.found.value, exit);
      JoinWithin(probes, launch, lo, mid, hi);
      assert GuardedSteps(repoPath, search, exit) == probes + launch;
    }
  }

  /** The edit branch: make and fill the temporary file, then the guarded part and the removal. */
  function EditSteps(repoPath: string, draft: GeneratedCommit, w: World): seq<Effect> {
    if !w.tempMade then [MakeTempFile]
    else
      var filled := [MakeTempFile, WriteTempFile(Git.MessageFileText(draft.message, Some(draft.description)))];
      if !w.tempWritten then filled
      else filled + GuardedSteps(repoPath, Search(w), w.editorExit) + [RemoveTempFile]
  }

  /** What the chosen branch does. */
  function DecisionSteps(repoPath: string, w: World): seq<Effect>
    requires ReachesDecision(w)
  {
    var draft := w.generated.value;
    match w.decision.value
    case Use => [CommitWithArgs(Git.CommitArgs(draft.message, Some(draft.description)), repoPath)]
    case Cancel => []
    case Edit => EditSteps(repoPath, draft, w)
  }

  /** The steps of a whole run. */
  function RunTrace(flags: Flags, w: World): seq<Effect> {
    if flags.help then [ShowHelp]
    else if flags.version then [ShowVersion(VersionLine())]
    else
      var repoPath := RepoPath(flags, w);
      if !GatesPass(w) then GateSteps(repoPath, w)
      else if !ReachesDecision(w) then GateSteps(repoPath, w) + DraftSteps(repoPath, w)
      else GateSteps(repoPath, w) + DraftSteps(repoPath, w) + DecisionSteps(repoPath, w)
  }

  /**
   * The guarded part of the edit branch: find an editor, run it on the
   * file, and commit from the file when it exits cleanly; answers the
   * effects it adds and whether the branch succeeded.
   */
  method EditBranch(repoPath: string, w: World) returns (added: seq<Effect>, ok: bool)
    ensures ProbesShape(Search(w).probes) && added == GuardedSteps(repoPath, Search(w), w.editorExit)
    ensures ok <==> Search(w).found.Ok? && w.editorExit == Editor.Exited(0) && w.fileCommitOk
  {
    var search := Search(w);
    SearchProbes(w);
    added, ok := ProbeEffects(search.probes), false;
    if search.found.Ok? {
      var run := Editor.OpenEditor(Some(search.found.value), w.editorVar, w.visualVar, w.editorExit);
      var launch := [LaunchEditor(run.command)];
      if run.ok {
        launch := launch + [CommitFromFile(repoPath)];
        ok := w.fileCommitOk;
      }
      added := added + launch;
    }
  }

  /** The gates of `main`, stopping at the first that fails. */
  method Gates(repoPath: string, w: World) returns (trace: seq<Effect>)
    ensures trace == GateSteps(repoPath, w)
  {
    trace := [CheckRepository(repoPath)];
    if w.gitDirExists != Ok(true) {
      return;
    }
    trace := trace + [ListStagedFiles(repoPath)];
    if w.stagedFiles.Failed? || w.stagedFiles.value == [] {
      return;
    }
    trace := trace + [PromptCommitType];
    if w.typeAnswer.Failed? {
      return;
    }
    trace := trace + [PromptLanguage];
    if w.languageAnswer.Failed? {
      return;
    }
    trace := trace + [ReadStagedDiff(repoPath)];
  }

  /** Drafting: ask for the draft, show it, read and show the statistics, show the final menu. */
  method Drafting(repoPath: string, w: World) returns (added: seq<Effect>)
    requires GatesPass(w)
    ensures added == DraftSteps(repoPath, w)
  {
    added := [GenerateCommit(w.diff.value, w.typeAnswer.value, w.languageAnswer.value)];
    if w.generated.Failed? {
      return;
    }
    added := added + [ShowDraft(DraftText(w.generated.value)), ReadDiffStatistics(repoPath)];
    if w.stats.Failed? {
      return;
    }
    added := added + [ShowStatistics(w.stats.value), PromptDecision];
  }

  /**
   * The edit branch: write the draft to a temporary file, let the user
   * edit it, commit from the file, and remove the file on every way out
   * of the guarded part, ignoring a failed removal.  A failed write
   * escapes before the clean-up is set up, so the file is left behind.
   */
  method EditPath(repoPath: string, draft: GeneratedCommit, w: World) returns (added: seq<Effect>, ok: bool, tempLeft: bool)
    ensures added == EditSteps(repoPath, draft, w)
    ensures ok <==> EditorRanCleanly(w) && w.fileCommitOk
    ensures tempLeft <==> w.tempMade && (!w.tempWritten || !w.removeOk)
  {
    added, ok, tempLeft := [MakeTempFile], false, false;
    if !w.tempMade {
      return;
    }
    added := added + [WriteTempFile(Git.MessageFileText(draft.message, Some(draft.description)))];
    if !w.tempWritten {
      tempLeft := true;
      return;
    }
    var guarded, committed := EditBranch(repoPath, w);
    added := added + guarded + [RemoveTempFile];
    ok := committed;
    tempLeft := !w.removeOk;
  }

  /**
   * `main`: one run of the command.  Help and version return at once;
   * otherwise every failure, whether a gate that exits or an error
   * caught by the single handler, ends the run with status 1.  The
   * properties of the trace are the lemmas below.
   */
  method Run(flags: Flags, w: World) returns (trace: seq<Effect>, status: int, tempLeft: bool)
    ensures trace == RunTrace(flags, w)
    ensures status == 0 || status == 1
    ensures status == 0 <==> flags.help || flags.version || (ReachesDecision(w) && BranchSucceeds(w))
    ensures tempLeft <==> !flags.help && !flags.version && ReachesDecision(w) && w.decision.value == Edit
                          && w.tempMade && (!w.tempWritten || !w.removeOk)
  {
    trace, status, tempLeft := [], 1, false;
    if flags.help {
      trace, status := [ShowHelp], 0;
      return;
    }
    if flags.version {
      trace, status := [ShowVersion(VersionLine())], 0;
      return;
    }

    var repoPath := RepoPath(flags, w);
    var gates := Gates(repoPath, w);
    trace := gates;
    if !GatesPass(w) {
      return;
    }
    var drafting := Drafting(repoPath, w);
    trace := gates + drafting;
    if !ReachesDecision(w) {
      return;
    }

    var draft := w.generated.value;
    match w.decision.value
    case Use =>
      trace := trace + [CommitWithArgs(Git.CommitArgs(draft.message, Some(draft.description)), repoPath)];
      status := if w.commitOk then 0 else 1;
    case Cancel =>
      status := 0;
    case Edit =>
      var editing, ok, left := EditPath(repoPath, draft, w);
      trace := trace + editing;
      status := if ok then 0 else 1;
      tempLeft := left;
  }

  // The order of a run's steps.

  /** The gates run in order, starting with the repository check and ending no later than the diff. */
  lemma GateInOrder(repoPath: string, w: World)
    ensures var t := GateSteps(repoPath, w);
      t != [] && t[0] == CheckRepository(repoPath) && Within(t, Rank(CheckRepository(repoPath)), Rank(ReadStagedDiff(repoPath)) + 1)
  {
  }

  /** Drafting runs in order, starting with the request and ending no later than the final menu. */
  lemma DraftInOrder(repoPath: string, w: World)
    requires GatesPass(w)
    ensures var t := DraftSteps(repoPath, w);
      t != [] && t[0] == Request(w) && Within(t, Rank(Request(w)), Rank(PromptDecision) + 1)
  {
  }

  /** Making and filling the file, then the guarded part, then the removal, are in order. */
  lemma Bracketed(text: string, guarded: seq<Effect>)
    requires Within(guarded, Rank(RunProbe(Editor.ProbeVim)), Rank(RemoveTempFile))
    ensures Within([MakeTempFile, WriteTempFile(text)] + guarded + [RemoveTempFile], Rank(MakeTempFile), Rank(RemoveTempFile) + 1)
  {
    var filled := [MakeTempFile, WriteTempFile(text)];
    JoinWithin(filled, guarded, Rank(MakeTempFile), Rank(RunProbe(Editor.ProbeVim)), Rank(RemoveTempFile));
    JoinWithin(filled + guarded, [RemoveTempFile], Rank(MakeTempFile), Rank(RemoveTempFile), Rank(RemoveTempFile) + 1);
  }

  /** The edit branch runs in order, starting with making the temporary file. */
  lemma EditInOrder(repoPath: string, draft: GeneratedCommit, w: World)
    ensures var t := EditSteps(repoPath, draft, w);
      t != [] && t[0] == MakeTempFile && Within(t, Rank(MakeTempFile), Rank(RemoveTempFile) + 1)
  {
    if w.tempMade && w.tempWritten {
      SearchProbes(w);
      GuardedInOrder(repoPath, Search(w), w.editorExit);
      Bracketed(Git.MessageFileText(draft.message, Some(draft.description)), GuardedSteps(repoPath, Search(w), w.editorExit));
    }
  }

  /** The gates and drafting together are in order, ending no later than the final menu. */
  lemma UpToDecisionInOrder(repoPath: string, w: World)
    requires GatesPass(w)
    ensures var u := GateSteps(repoPath, w) + DraftSteps(repoPath, w);
      u != [] && Within(u, Rank(CheckRepository(repoPath)), Rank(PromptDecision) + 1)
  {
    GateInOrder(repoPath, w);
    DraftInOrder(repoPath, w);
    JoinWithin(GateSteps(repoPath, w), DraftSteps(repoPath, w), Rank(CheckRepository(repoPath)), Rank(Request(w)), Rank(PromptDecision) + 1);
  }

  /** Each branch is in order and starts after the final menu. */
  lemma DecisionInOrder(repoPath: string, w: World)
    requires ReachesDecision(w)
    ensures Within(DecisionSteps(repoPath, w), Rank(PromptDecision) + 1, Rank(RemoveTempFile) + 1)
  {
    if w.decision.value == Edit {
      EditInOrder(repoPath, w.generated.value, w);
    }
  }

  /** Every run performs its steps in the workflow's order, so no step happens twice. */
  lemma RunInOrder(flags: Flags, w: World)
    ensures InOrder(RunTrace(flags, w))
  {
    if !flags.help && !flags.version {
      var repoPath := RepoPath(flags, w);
      GateInOrder(repoPath, w);
      if GatesPass(w) {
        UpToDecisionInOrder(repoPath, w);
        if ReachesDecision(w) {
          DecisionInOrder(repoPath, w);
          Concat(GateSteps(repoPath, w) + DraftSteps(repoPath, w), DecisionSteps(repoPath, w));
        }
      }
    }
  }

  // What each stage does, stage by stage.

  /** The gates stop at an unusable repository and at an empty staging area, and pass in five steps. */
  lemma GateShape(repoPath: string, w: World)
    ensures w.gitDirExists != Ok(true) ==> GateSteps(repoPath, w) == [CheckRepository(repoPath)]
    ensures w.gitDirExists == Ok(true) && w.stagedFiles.Ok? && w.stagedFiles.value == [] ==>
      GateSteps(repoPath, w) == [CheckRepository(repoPath), ListStagedFiles(repoPath)]
    ensures GatesPass(w) ==> |GateSteps(repoPath, w)| == 5
  {
  }

  /** Drafting shows the draft only once it exists, and the final menu only after the statistics. */
  lemma DraftShape(repoPath: string, w: World)
    requires GatesPass(w)
    ensures w.generated.Failed? ==> DraftSteps(repoPath, w) == [Request(w)]
    ensures w.generated.Ok? && w.stats.Failed? ==>
      DraftSteps(repoPath, w) == [Request(w), ShowDraft(DraftText(w.generated.value)), ReadDiffStatistics(repoPath)]
    ensures w.generated.Ok? && w.stats.Ok? ==>
      DraftSteps(repoPath, w) == [Request(w), ShowDraft(DraftText(w.generated.value)), ReadDiffStatistics(repoPath),
                                  ShowStatistics(w.stats.value), PromptDecision]
  {
  }

  /** The guarded part commits from the file exactly when an editor was found and exited cleanly. */
  lemma GuardedCommit(repoPath: string, search: Editor.EditorSearch, exit: Editor.EditorExit)
    requires ProbesShape(search.probes)
    ensures CommitFromFile(repoPath) in GuardedSteps(repoPath, search, exit) <==>
      search.found.Ok? && exit == Editor.Exited(0)
  {
    ProbeStepsOnly(search.probes);
  }

  /** The edit branch writes the draft into the file it made, and removes the file once written. */
  lemma EditShape(repoPath: string, draft: GeneratedCommit, w: World)
    ensures var t := EditSteps(repoPath, draft, w);
      && (!w.tempMade ==> t == [MakeTempFile])
      && (w.tempMade ==> |t| >= 2 && t[1] == WriteTempFile(Git.MessageFileText(draft.message, Some(draft.description))))
      && (w.tempMade && !w.tempWritten ==> |t| == 2)
      && (w.tempMade && w.tempWritten ==> t[|t| - 1] == RemoveTempFile)
  {
  }

  /** The edit branch commits from the file exactly when the editor ran cleanly. */
  lemma EditCommit(repoPath: string, draft: GeneratedCommit, w: World)
    ensures CommitFromFile(repoPath) in EditSteps(repoPath, draft, w) <==> EditorRanCleanly(w)
  {
    if w.tempMade && w.tempWritten {
      SearchProbes(w);
      GuardedCommit(repoPath, Search(w), w.editorExit);
    }
  }

  // What a whole run does.

  /**
   * Help and version print and stop; every other run starts with the
   * repository check, stops right after it outside a repository, and
   * stops after listing when nothing is staged.
   */
  lemma EarlyExits(flags: Flags, w: World)
    ensures flags.help ==> RunTrace(flags, w) == [ShowHelp]
    ensures !flags.help && flags.version ==> RunTrace(flags, w) == [ShowVersion(VersionLine())]
    ensures !flags.help && !flags.version ==>
      RunTrace(flags, w) != [] && RunTrace(flags, w)[0] == CheckRepository(RepoPath(flags, w))
    ensures !flags.help && !flags.version && w.gitDirExists != Ok(true) ==>
      RunTrace(flags, w) == [CheckRepository(RepoPath(flags, w))]
    ensures !flags.help && !flags.version && w.gitDirExists == Ok(true) && w.stagedFiles.Ok? && w.stagedFiles.value == [] ==>
      RunTrace(flags, w) == [CheckRepository(RepoPath(flags, w)), ListStagedFiles(RepoPath(flags, w))]
  {
    GateShape(RepoPath(flags, w), w);
  }

  /**
   * When git lists nothing but whitespace for the staged files, the run
   * stops right after listing them and never asks for a draft.
   */
  lemma BlankListingStops(flags: Flags, w: World, nameOnly: string)
    requires !flags.help && !flags.version && w.gitDirExists == Ok(true)
    requires w.stagedFiles == Ok(Git.StagedFiles(nameOnly)) && Trim(nameOnly) == []
    ensures RunTrace(flags, w) == [CheckRepository(RepoPath(flags, w)), ListStagedFiles(RepoPath(flags, w))]
    ensures Requests(RunTrace(flags, w)) == 0
  {
    Git.NothingStagedIffBlank(nameOnly);
    EarlyExits(flags, w);
    NoRequestWithoutGates(flags, w);
  }

  /** A run asks for a draft at most once. */
  lemma RequestedAtMostOnce(flags: Flags, w: World)
    ensures Requests(RunTrace(flags, w)) <= 1
  {
    RunInOrder(flags, w);
    AtMostOneRequest(RunTrace(flags, w));
  }

  /** Once the gates pass, the sixth step asks for the draft, with the two answers and the staged diff. */
  lemma RequestAfterGates(flags: Flags, w: World)
    requires !flags.help && !flags.version && GatesPass(w)
    ensures |RunTrace(flags, w)| > 5 && RunTrace(flags, w)[5] == Request(w)
  {
    var repoPath := RepoPath(flags, w);
    GateShape(repoPath, w);
    assert RunTrace(flags, w)[5] == DraftSteps(repoPath, w)[0];
  }

  /** A run whose gates do not all pass never asks for a draft. */
  lemma NoRequestWithoutGates(flags: Flags, w: World)
    requires flags.help || flags.version || !GatesPass(w)
    ensures Requests(RunTrace(flags, w)) == 0
  {
    var t := RunTrace(flags, w);
    if !flags.help && !flags.version {
      GateInOrder(RepoPath(flags, w), w);
      RankBounds(t);
    }
    NoRequests(t);
  }

  /** Once the gates pass, a failed draft ends the run right after the request. */
  lemma NoDraftNoStatistics(flags: Flags, w: World)
    requires !flags.help && !flags.version && GatesPass(w) && w.generated.Failed?
    ensures |RunTrace(flags, w)| == 6
  {
    var repoPath := RepoPath(flags, w);
    GateShape(repoPath, w);
    DraftShape(repoPath, w);
  }

  /** A produced draft is shown, and the statistics are read right after it. */
  lemma DraftThenStatistics(flags: Flags, w: World)
    requires !flags.help && !flags.version && GatesPass(w) && w.generated.Ok?
    ensures |RunTrace(flags, w)| >= 8
    ensures RunTrace(flags, w)[6] == ShowDraft(DraftText(w.generated.value))
    ensures RunTrace(flags, w)[7] == ReadDiffStatistics(RepoPath(flags, w))
    ensures w.stats.Failed? ==> |RunTrace(flags, w)| == 8
  {
    var repoPath := RepoPath(flags, w);
    GateShape(repoPath, w);
    DraftShape(repoPath, w);
  }

  /** The final menu comes only after the statistics are shown. */
  lemma StatisticsThenDecision(flags: Flags, w: World)
    requires !flags.help && !flags.version && GatesPass(w) && w.generated.Ok? && w.stats.Ok?
    ensures |RunTrace(flags, w)| >= 10
    ensures RunTrace(flags, w)[8] == ShowStatistics(w.stats.value)
    ensures RunTrace(flags, w)[9] == PromptDecision
  {
    var repoPath := RepoPath(flags, w);
    GateShape(repoPath, w);
    DraftShape(repoPath, w);
  }

  /** Steps no later than the final menu include no commit and no temporary file. */
  lemma UpToMenuKinds(t: seq<Effect>)
    requires forall e :: e in t ==> Rank(e) <= Rank(PromptDecision)
    ensures forall e :: e in t ==> !e.CommitWithArgs? && !e.CommitFromFile? && !e.MakeTempFile?
  {
  }

  /** An ordered trace starting with making the temporary file runs no `git commit` with arguments. */
  lemma EditKinds(t: seq<Effect>)
    requires InOrder(t) && t != [] && t[0] == MakeTempFile
    ensures forall e :: e in t ==> !e.CommitWithArgs?
  {
    RankBounds(t);
  }

  /** A run that reaches the final menu has taken ten steps, with no commit and no temporary file. */
  lemma BeforeDecision(repoPath: string, w: World)
    requires ReachesDecision(w)
    ensures var u := GateSteps(repoPath, w) + DraftSteps(repoPath, w);
      && |u| == 10 && u[9] == PromptDecision
      && forall e :: e in u ==> !e.CommitWithArgs? && !e.CommitFromFile? && !e.MakeTempFile?
  {
    var u := GateSteps(repoPath, w) + DraftSteps(repoPath, w);
    GateShape(repoPath, w);
    DraftShape(repoPath, w);
    UpToDecisionInOrder(repoPath, w);
    RankBounds(u);
    UpToMenuKinds(u);
  }

  /** Cancelling ends the run at the final menu, with no commit of either kind. */
  lemma CancelCommitsNothing(flags: Flags, w: World)
    requires !flags.help && !flags.version && ReachesDecision(w) && w.decision.value == Cancel
    ensures |RunTrace(flags, w)| == 10 && RunTrace(flags, w)[9] == PromptDecision
    ensures forall e :: e in RunTrace(flags, w) ==> !e.CommitWithArgs? && !e.CommitFromFile?
  {
    var repoPath := RepoPath(flags, w);
    BeforeDecision(repoPath, w);
    assert RunTrace(flags, w) == GateSteps(repoPath, w) + DraftSteps(repoPath, w);
  }

  /**
   * Using the draft ends the run with one `git commit` carrying the
   * draft's message and description, and no temporary file.
   */
  lemma UseCommitsDraft(flags: Flags, w: World)
    requires !flags.help && !flags.version && ReachesDecision(w) && w.decision.value == Use
    ensures |RunTrace(flags, w)| == 11
    ensures RunTrace(flags, w)[10] ==
      CommitWithArgs(Git.CommitArgs(w.generated.value.message, Some(w.generated.value.description)), RepoPath(flags, w))
    ensures forall e :: e in RunTrace(flags, w) ==> !e.CommitFromFile? && !e.MakeTempFile?
  {
    var repoPath := RepoPath(flags, w);
    var draft := w.generated.value;
    var u := GateSteps(repoPath, w) + DraftSteps(repoPath, w);
    var c := CommitWithArgs(Git.CommitArgs(draft.message, Some(draft.description)), repoPath);
    BeforeDecision(repoPath, w);
    assert RunTrace(flags, w) == u + [c];
  }

  /**
   * Editing makes the temporary file right after the final menu, fills
   * it with the draft, and removes it at the end once it was written.
   */
  lemma EditWritesDraft(flags: Flags, w: World)
    requires !flags.help && !flags.version && ReachesDecision(w) && w.decision.value == Edit
    ensures |RunTrace(flags, w)| > 10 && RunTrace(flags, w)[10] == MakeTempFile
    ensures w.tempMade ==> |RunTrace(flags, w)| > 11
    ensures w.tempMade ==>
      RunTrace(flags, w)[11] == WriteTempFile(Git.MessageFileText(w.generated.value.message, Some(w.generated.value.description)))
    ensures w.tempMade && w.tempWritten ==> RunTrace(flags, w)[|RunTrace(flags, w)| - 1] == RemoveTempFile
  {
    var repoPath := RepoPath(flags, w);
    BeforeDecision(repoPath, w);
    EditShape(repoPath, w.generated.value, w);
  }

  /**
   * Editing never runs `git commit` with arguments; it commits from the
   * file exactly when the editor ran cleanly.
   */
  lemma EditCommitsFromFile(flags: Flags, w: World)
    requires !flags.help && !flags.version && ReachesDecision(w) && w.decision.value == Edit
    ensures CommitFromFile(RepoPath(flags, w)) in RunTrace(flags, w) <==> EditorRanCleanly(w)
    ensures forall e :: e in RunTrace(flags, w) ==> !e.CommitWithArgs?
  {
    var repoPath := RepoPath(flags, w);
    var u := GateSteps(repoPath, w) + DraftSteps(repoPath, w);
    var edit := EditSteps(repoPath, w.generated.value, w);
    BeforeDecision(repoPath, w);
    EditCommit(repoPath, w.generated.value, w);
    EditInOrder(repoPath, w.generated.value, w);
    EditKinds(edit);
    assert RunTrace(flags, w) == u + edit;
  }
}
